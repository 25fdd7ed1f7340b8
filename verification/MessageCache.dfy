// The message cache (src/dev_model/dm_message_cache.c), the queue of events for the user
// (src/dev_model/dm_ipc.c), the reply handlers that connect them (src/dev_model/dm_msg_process.c and
// dm_message.c) and the dispatcher (src/dev_model/dm_api.c), one call at a time.
module MessageCache {
  import opened Bytes
  import opened Options

  const CACHE_MAX: int := 50
  const DISPATCH_MAX: nat := 50
  const TIMEOUT_MS: nat := 10000
  const CODE_TIMEOUT: int := 100000

  // A request that waits for its reply.
  datatype Entry = Entry(msgid: int, devid: int, ctime: nat)

  // The event of a request, its reply or its timeout; or any other event with its type and text.
  datatype Event = Outcome(msgid: int, devid: int, code: int) | Notice(kind: nat, message: seq<Byte>)

  predicate About(e: Event, msgid: int) {
    e.Outcome? && e.msgid == msgid
  }

  // `accepted` are the events that the queue took and `delivered` those that the callback got;
  // `issued` are the ids of the cached requests and `expired` counts the timeouts.
  datatype State = State(
    list: seq<Entry>,
    listSize: int,
    queue: seq<Event>,
    queueMax: nat,
    accepted: seq<Event>,
    delivered: seq<Event>,
    issued: set<int>,
    expired: nat
  )

  // ---------- what the operations do ----------

  function Insert(s: State, e: Entry, memory: bool): State {
    if s.listSize >= CACHE_MAX || !memory then s
    else s.(list := s.list + [e], listSize := s.listSize + 1, issued := s.issued + {e.msgid})
  }

  function Find(list: seq<Entry>, msgid: int): Option<Entry> {
    if list == [] then None else if list[0].msgid == msgid then Some(list[0]) else Find(list[1..], msgid)
  }

  function Without(list: seq<Entry>, msgid: int): seq<Entry> {
    if list == [] then [] else if list[0].msgid == msgid then list[1..] else [list[0]] + Without(list[1..], msgid)
  }

  // Only this operation counts down.
  function Remove(s: State, msgid: int): State {
    if Find(s.list, msgid).None? then s else s.(list := Without(s.list, msgid), listSize := s.listSize - 1)
  }

  function Enqueue(s: State, e: Event, memory: bool): State {
    if !memory || |s.queue| >= s.queueMax then s
    else s.(queue := s.queue + [e], accepted := s.accepted + [e])
  }

  // Search, then the event, then the removal; the removal happens also when the event was refused.
  function Reply(s: State, msgid: int, code: int, memory: bool): State {
    var found := if msgid < 0 then None else Find(s.list, msgid);
    var sent := if found.None? then s else Enqueue(s, Outcome(msgid, found.value.devid, code), memory);
    Remove(sent, msgid)
  }

  // A clock that went back moves the creation time back with it.
  function Aged(e: Entry, now: nat): Entry {
    if now < e.ctime then e.(ctime := now) else e
  }

  predicate IsOld(e: Entry, now: nat) {
    now - Aged(e, now).ctime >= TIMEOUT_MS
  }

  // The walk over the list from place i on; the counter stays.
  function TickFrom(s: State, i: nat, now: nat, memory: nat -> bool): State
    requires i <= |s.list|
    decreases |s.list| - i
  {
    if i == |s.list| then s
    else
      var e := s.list[i];
      if IsOld(e, now) then
        var sent := Enqueue(s, Outcome(e.msgid, e.devid, CODE_TIMEOUT), memory(|s.list| - i));
        TickFrom(sent.(list := s.list[..i] + s.list[i + 1..], expired := s.expired + 1), i, now, memory)
      else TickFrom(s.(list := s.list[i := Aged(e, now)]), i + 1, now, memory)
  }

  function Tick(s: State, now: nat, memory: nat -> bool): State {
    TickFrom(s, 0, now, memory)
  }

  // Takes up to n events from the queue to the callback.
  function Deliver(s: State, n: nat): State
    decreases n
  {
    if n == 0 || s.queue == [] then s
    else Deliver(s.(queue := s.queue[1..], delivered := s.delivered + [s.queue[0]]), n - 1)
  }

  function Dispatch(s: State, now: nat, memory: nat -> bool): State {
    Deliver(Tick(s, now, memory), DISPATCH_MAX)
  }

  // ---------- runs ----------

  datatype Operation =
    | Request(entry: Entry, memory: bool)
    | Answer(msgid: int, code: int, memory: bool)
    | Turn(now: nat, granted: nat -> bool)
    | Notify(event: Event, memory: bool)

  // Message ids are not given out twice, and outcomes come from the handlers only.
  predicate Fresh(s: State, op: Operation) {
    (op.Request? ==> op.entry.msgid !in s.issued) && (op.Notify? ==> op.event.Notice?)
  }

  function Apply(s: State, op: Operation): State {
    match op
    case Request(entry, memory) => Insert(s, entry, memory)
    case Answer(msgid, code, memory) => Reply(s, msgid, code, memory)
    case Turn(now, granted) => Dispatch(s, now, granted)
    case Notify(event, memory) => Enqueue(s, event, memory)
  }

  function Run(s: State, ops: seq<Operation>): State
    decreases |ops|
  {
    if ops == [] then s else Run(Apply(s, ops[0]), ops[1..])
  }

  predicate AllFresh(s: State, ops: seq<Operation>)
    decreases |ops|
  {
    ops != [] ==> Fresh(s, ops[0]) && AllFresh(Apply(s, ops[0]), ops[1..])
  }

  function Initial(queueMax: nat): State {
    State([], 0, [], queueMax, [], [], {}, 0)
  }

  // How many of the events are about the request.
  function Count(events: seq<Event>, msgid: int): nat {
    if events == [] then 0 else Count(events[..|events| - 1], msgid) + if About(events[|events| - 1], msgid) then 1 else 0
  }

  predicate Waits(list: seq<Entry>, msgid: int) {
    exists i :: 0 <= i < |list| && list[i].msgid == msgid
  }

  // ---------- what every run keeps ----------

  ghost predicate Counted(s: State) {
    s.listSize == |s.list| + s.expired && s.listSize <= CACHE_MAX
  }

  ghost predicate Queued(s: State) {
    s.accepted == s.delivered + s.queue && |s.queue| <= s.queueMax
  }

  // A waiting request has had no event, and any other at most one.
  ghost predicate Answered(s: State) {
    && (forall i, j :: 0 <= i < j < |s.list| ==> s.list[i].msgid != s.list[j].msgid)
    && (forall i :: 0 <= i < |s.list| ==> s.list[i].msgid in s.issued)
    && (forall m :: Count(s.accepted, m) <= 1)
    && (forall i :: 0 <= i < |s.list| ==> Count(s.accepted, s.list[i].msgid) == 0)
    && (forall m :: m !in s.issued ==> Count(s.accepted, m) == 0)
  }

  ghost predicate Inv(s: State) {
    Counted(s) && Queued(s) && Answered(s)
  }

  lemma {:induction false} FindIs(list: seq<Entry>, msgid: int)
    ensures Find(list, msgid).Some? <==> Waits(list, msgid)
    ensures Find(list, msgid).Some? ==> |Without(list, msgid)| == |list| - 1 && Find(list, msgid).value in list
    ensures Find(list, msgid).Some? ==> Find(list, msgid).value.msgid == msgid
    ensures Find(list, msgid).None? ==> Without(list, msgid) == list
    decreases |list|
  {
    if list != [] && list[0].msgid != msgid {
      FindIs(list[1..], msgid);
      if Waits(list, msgid) {
        var i :| 0 <= i < |list| && list[i].msgid == msgid;
        assert list[1..][i - 1].msgid == msgid;
      }
      if Waits(list[1..], msgid) {
        var i :| 0 <= i < |list[1..]| && list[1..][i].msgid == msgid;
        assert list[i + 1].msgid == msgid;
      }
    }
  }

  function RemoveAt(list: seq<Entry>, i: nat): seq<Entry>
    requires i < |list|
  {
    list[..i] + list[i + 1..]
  }

  lemma {:induction false} WithoutRemoves(list: seq<Entry>, msgid: int) returns (i: nat)
    requires Find(list, msgid).Some?
    ensures i < |list| && list[i].msgid == msgid && Find(list, msgid) == Some(list[i]) && Without(list, msgid) == RemoveAt(list, i)
    decreases |list|
  {
    if list[0].msgid == msgid {
      i := 0;
      assert [] + list[1..] == list[1..];
    } else {
      i := WithoutRemoves(list[1..], msgid);
      i := i + 1;
      assert RemoveAt(list, i) == [list[0]] + RemoveAt(list[1..], i - 1);
    }
  }

  lemma CountAppend(events: seq<Event>, e: Event, msgid: int)
    ensures Count(events + [e], msgid) == Count(events, msgid) + if About(e, msgid) then 1 else 0
  {
    assert (events + [e])[..|events|] == events;
  }

  lemma InitialInv(queueMax: nat)
    ensures Inv(Initial(queueMax))
  {}

  lemma InsertKeeps(s: State, e: Entry, memory: bool)
    requires Inv(s) && e.msgid !in s.issued
    ensures Inv(Insert(s, e, memory))
  {
    hide Count;
  }

  // A request leaves the list, with an event about it or without one.
  lemma AnsweredRemoval(s: State, after: State, i: nat, e: Event)
    requires Answered(s) && i < |s.list| && About(e, s.list[i].msgid)
    requires after.list == RemoveAt(s.list, i) && after.issued == s.issued
    requires after.accepted == s.accepted || after.accepted == s.accepted + [e]
    ensures Answered(after)
  {
    hide Count;
    forall m ensures Count(s.accepted + [e], m) == Count(s.accepted, m) + if About(e, m) then 1 else 0 {
      CountAppend(s.accepted, e, m);
    }
    assert forall k :: 0 <= k < |after.list| ==> after.list[k] == s.list[if k < i then k else k + 1];
    assert Count(s.accepted, s.list[i].msgid) == 0;
  }

  lemma EnqueueKeeps(s: State, e: Event, memory: bool)
    requires Queued(s)
    ensures Queued(Enqueue(s, e, memory))
  {
    assert s.delivered + s.queue + [e] == s.delivered + (s.queue + [e]);
  }

  lemma NotifyKeeps(s: State, e: Event, memory: bool)
    requires Inv(s) && e.Notice?
    ensures Inv(Enqueue(s, e, memory))
  {
    EnqueueKeeps(s, e, memory);
    hide Count;
    forall m ensures Count(s.accepted + [e], m) == Count(s.accepted, m) {
      CountAppend(s.accepted, e, m);
    }
  }

  lemma ReplyKeeps(s: State, msgid: int, code: int, memory: bool)
    requires Inv(s)
    ensures Inv(Reply(s, msgid, code, memory))
  {
    hide Count, Answered;
    FindIs(s.list, msgid);
    if Find(s.list, msgid).Some? {
      var i := WithoutRemoves(s.list, msgid);
      var e := Outcome(msgid, s.list[i].devid, code);
      EnqueueKeeps(s, e, memory);
      AnsweredRemoval(s, Reply(s, msgid, code, memory), i, e);
    }
  }

  lemma {:induction false} TickKeeps(s: State, i: nat, now: nat, memory: nat -> bool)
    requires Inv(s) && i <= |s.list|
    ensures Inv(TickFrom(s, i, now, memory))
    ensures s.expired <= TickFrom(s, i, now, memory).expired
    decreases |s.list| - i
  {
    hide Count, Answered;
    if i < |s.list| {
      var e := s.list[i];
      if IsOld(e, now) {
        var event := Outcome(e.msgid, e.devid, CODE_TIMEOUT);
        var sent := Enqueue(s, event, memory(|s.list| - i));
        var next := sent.(list := s.list[..i] + s.list[i + 1..], expired := s.expired + 1);
        EnqueueKeeps(s, event, memory(|s.list| - i));
        AnsweredRemoval(s, next, i, event);
        TickKeeps(next, i, now, memory);
      } else {
        AgedKeeps(s, i, now);
        TickKeeps(s.(list := s.list[i := Aged(e, now)]), i + 1, now, memory);
      }
    }
  }

  lemma AgedKeeps(s: State, i: nat, now: nat)
    requires Answered(s) && i < |s.list|
    ensures Answered(s.(list := s.list[i := Aged(s.list[i], now)]))
  {
    hide Count;
    var list := s.list[i := Aged(s.list[i], now)];
    assert forall k :: 0 <= k < |list| ==> list[k].msgid == s.list[k].msgid;
  }

  // Events leave the queue in the order in which they came, each once.
  lemma {:induction false} DeliverIs(s: State, n: nat)
    requires Queued(s)
    ensures var k := if n < |s.queue| then n else |s.queue|;
            Deliver(s, n) == s.(queue := s.queue[k..], delivered := s.delivered + s.queue[..k])
    ensures Queued(Deliver(s, n))
    decreases n
  {
    if n == 0 || s.queue == [] {
      assert s.delivered + s.queue[..0] == s.delivered && s.queue[0..] == s.queue;
    } else {
      MovedHead(s.delivered, s.queue, if n < |s.queue| then n else |s.queue|);
      DeliverIs(s.(queue := s.queue[1..], delivered := s.delivered + [s.queue[0]]), n - 1);
    }
  }

  lemma MovedHead(delivered: seq<Event>, queue: seq<Event>, k: nat)
    requires 0 < k <= |queue|
    ensures (delivered + [queue[0]]) + queue[1..] == delivered + queue
    ensures (delivered + [queue[0]]) + queue[1..][..k - 1] == delivered + queue[..k] && queue[1..][k - 1..] == queue[k..]
  {}

  lemma ApplyKeeps(s: State, op: Operation)
    requires Inv(s) && Fresh(s, op)
    ensures Inv(Apply(s, op)) && s.expired <= Apply(s, op).expired
  {
    hide Answered, Dispatch;
    match op {
      case Request(entry, memory) => InsertKeeps(s, entry, memory);
      case Answer(msgid, code, memory) => ReplyKeeps(s, msgid, code, memory);
      case Turn(now, granted) => DispatchKeeps(s, now, granted);
      case Notify(event, memory) => NotifyKeeps(s, event, memory);
    }
  }

  lemma DispatchKeeps(s: State, now: nat, memory: nat -> bool)
    requires Inv(s)
    ensures Inv(Dispatch(s, now, memory)) && s.expired <= Dispatch(s, now, memory).expired
  {
    hide Answered, TickFrom, Deliver;
    TickKeeps(s, 0, now, memory);
    DeliverIs(Tick(s, now, memory), DISPATCH_MAX);
    DispatchAnswered(Tick(s, now, memory));
  }

  lemma DispatchAnswered(s: State)
    requires Inv(s)
    ensures Answered(Deliver(s, DISPATCH_MAX))
  {
    hide Deliver;
    DeliverIs(s, DISPATCH_MAX);
  }

  // Over every run: at most one event for a request, the counter is the length of the list plus the
  // number of requests that timed out and stays within its bound, and the accepted events are the
  // delivered ones and then the queue, which stays within its own.
  lemma {:induction false} RunKeeps(s: State, ops: seq<Operation>)
    requires Inv(s) && AllFresh(s, ops)
    ensures Inv(Run(s, ops)) && s.expired <= Run(s, ops).expired
    decreases |ops|
  {
    hide Inv, Apply, Fresh;
    if ops != [] {
      ApplyKeeps(s, ops[0]);
      RunKeeps(Apply(s, ops[0]), ops[1..]);
    }
  }

  lemma RunsFromStart(queueMax: nat, ops: seq<Operation>)
    requires AllFresh(Initial(queueMax), ops)
    ensures var s := Run(Initial(queueMax), ops);
            && (forall m :: Count(s.accepted, m) <= 1)
            && s.listSize - |s.list| == s.expired && s.listSize <= CACHE_MAX
            && s.accepted == s.delivered + s.queue && |s.queue| <= s.queueMax
  {
    hide Run;
    InitialInv(queueMax);
    RunKeeps(Initial(queueMax), ops);
  }

  // The timeouts use the cache up: when as many requests have timed out as it has places, no request
  // is cached any more, whatever happens.
  lemma TimeoutsUseUpTheCache(s: State, ops: seq<Operation>, e: Entry, memory: bool)
    requires Inv(s) && AllFresh(s, ops) && s.expired >= CACHE_MAX
    ensures var later := Run(s, ops); later.list == [] && Insert(later, e, memory) == later
  {
    RunKeeps(s, ops);
    hide Run, Answered;
  }

  // Such a run: as many requests as the cache has places, and ten seconds without a reply.
  function UseUp(n: nat, msgid: int): (ops: seq<Operation>)
    ensures |ops| == n + 1
  {
    if n == 0 then [Turn(TIMEOUT_MS, _ => true)]
    else [Request(Entry(msgid, 0, 0), true)] + UseUp(n - 1, msgid + 1)
  }

  lemma {:induction false} TickAll(s: State, now: nat, memory: nat -> bool)
    requires now >= TIMEOUT_MS && forall i :: 0 <= i < |s.list| ==> s.list[i].ctime == 0
    ensures var after := Tick(s, now, memory);
            after.list == [] && after.expired == s.expired + |s.list| && after.listSize == s.listSize
    decreases |s.list|
  {
    if s.list != [] {
      var e := s.list[0];
      var sent := Enqueue(s, Outcome(e.msgid, e.devid, CODE_TIMEOUT), memory(|s.list|));
      assert s.list[..0] + s.list[1..] == s.list[1..];
      TickAll(sent.(list := s.list[1..], expired := s.expired + 1), now, memory);
    }
  }

  lemma {:induction false} DeliverKeepsCache(s: State, n: nat)
    ensures var after := Deliver(s, n);
            after.list == s.list && after.expired == s.expired && after.listSize == s.listSize
    decreases n
  {
    if n > 0 && s.queue != [] {
      DeliverKeepsCache(s.(queue := s.queue[1..], delivered := s.delivered + [s.queue[0]]), n - 1);
    }
  }

  lemma {:induction false} UsesUp(s: State, n: nat, msgid: int)
    requires s.listSize == |s.list| + s.expired == CACHE_MAX - n
    requires forall i :: 0 <= i < |s.list| ==> s.list[i].ctime == 0
    requires forall m :: m in s.issued ==> m < msgid
    ensures AllFresh(s, UseUp(n, msgid))
    ensures var later := Run(s, UseUp(n, msgid)); later.list == [] && later.expired == later.listSize == CACHE_MAX
    decreases n
  {
    var ops := UseUp(n, msgid);
    var next := Apply(s, ops[0]);
    if n == 0 {
      TickAll(s, TIMEOUT_MS, _ => true);
      DeliverKeepsCache(Tick(s, TIMEOUT_MS, _ => true), DISPATCH_MAX);
      assert ops[1..] == [] && Run(next, []) == next && AllFresh(next, []);
    } else {
      hide Dispatch, Reply;
      assert ops[1..] == UseUp(n - 1, msgid + 1);
      UsesUp(next, n - 1, msgid + 1);
    }
  }

  // The run exists for every size of the queue, and after it the cache is empty and refuses everything.
  lemma CacheCanBeUsedUp(queueMax: nat)
    ensures AllFresh(Initial(queueMax), UseUp(CACHE_MAX, 1))
    ensures var s := Run(Initial(queueMax), UseUp(CACHE_MAX, 1));
            s.expired == CACHE_MAX && s.list == [] && forall e :: Insert(s, e, true) == s
  {
    UsesUp(Initial(queueMax), CACHE_MAX, 1);
    hide Run, UseUp;
  }

  // And only they: while fewer have timed out, a request is refused exactly when the waiting ones fill
  // the places that are left, or memory runs out.
  lemma RefusedIff(s: State, e: Entry, memory: bool)
    requires Inv(s)
    ensures Insert(s, e, memory) == s <==> |s.list| >= CACHE_MAX - s.expired || !memory
  {
    hide Answered;
  }

  // ---------- events in order ----------

  predicate IsPrefix(a: seq<Event>, b: seq<Event>) {
    |a| <= |b| && b[..|a|] == a
  }

  lemma {:induction false} TickGrows(s: State, i: nat, now: nat, memory: nat -> bool)
    requires i <= |s.list|
    ensures var after := TickFrom(s, i, now, memory);
            IsPrefix(s.queue, after.queue) && IsPrefix(s.accepted, after.accepted)
            && after.delivered == s.delivered && after.queueMax == s.queueMax
    decreases |s.list| - i
  {
    if i < |s.list| {
      var e := s.list[i];
      if IsOld(e, now) {
        var sent := Enqueue(s, Outcome(e.msgid, e.devid, CODE_TIMEOUT), memory(|s.list| - i));
        var next := sent.(list := s.list[..i] + s.list[i + 1..], expired := s.expired + 1);
        TickGrows(next, i, now, memory);
        var after := TickFrom(next, i, now, memory);
        PrefixTrans(s.queue, next.queue, after.queue);
        PrefixTrans(s.accepted, next.accepted, after.accepted);
      } else {
        TickGrows(s.(list := s.list[i := Aged(e, now)]), i + 1, now, memory);
      }
    }
  }

  lemma PrefixTrans(a: seq<Event>, b: seq<Event>, c: seq<Event>)
    requires IsPrefix(a, b) && IsPrefix(b, c)
    ensures IsPrefix(a, c)
  {
    assert c[..|a|] == c[..|b|][..|a|];
  }

  lemma ApplyGrows(s: State, op: Operation)
    requires Inv(s) && Fresh(s, op)
    ensures IsPrefix(s.accepted, Apply(s, op).accepted)
  {
    hide Answered, Counted, Tick, Deliver;
    if op.Turn? {
      TurnDelivers(s, op.now, op.granted);
    }
  }

  // A turn hands over the events that wait, in their order, before those of its own timeouts: all of
  // them when the queue holds no more than a turn takes.
  lemma TurnDelivers(s: State, now: nat, granted: nat -> bool)
    requires Inv(s)
    ensures var after := Dispatch(s, now, granted);
            && IsPrefix(s.accepted, after.accepted)
            && IsPrefix(s.delivered + s.queue[..if |s.queue| < DISPATCH_MAX then |s.queue| else DISPATCH_MAX], after.delivered)
            && (s.queueMax <= DISPATCH_MAX ==> after.queue == [])
  {
    hide Answered, Deliver;
    TickKeeps(s, 0, now, granted);
    TickGrows(s, 0, now, granted);
    var ticked := Tick(s, now, granted);
    DeliverIs(ticked, DISPATCH_MAX);
    var n := if |s.queue| < DISPATCH_MAX then |s.queue| else DISPATCH_MAX;
    var k := if |ticked.queue| < DISPATCH_MAX then |ticked.queue| else DISPATCH_MAX;
    assert ticked.queue[..k][..n] == ticked.queue[..|s.queue|][..n] == s.queue[..n];
    assert (s.delivered + ticked.queue[..k])[..|s.delivered| + n] == s.delivered + s.queue[..n];
  }

  lemma {:induction false} RunGrows(s: State, ops: seq<Operation>)
    requires Inv(s) && AllFresh(s, ops)
    ensures IsPrefix(s.accepted, Run(s, ops).accepted)
    decreases |ops|
  {
    hide Inv, Apply, Fresh, IsPrefix;
    if ops == [] {
      PrefixSelf(s.accepted);
    } else {
      var next := Apply(s, ops[0]);
      ApplyKeeps(s, ops[0]);
      ApplyGrows(s, ops[0]);
      RunGrows(next, ops[1..]);
      PrefixTrans(s.accepted, next.accepted, Run(next, ops[1..]).accepted);
    }
  }

  lemma PrefixSelf(a: seq<Event>)
    ensures IsPrefix(a, a)
  {}

  // An accepted event keeps its number for ever: when that many events have been delivered, it was
  // the one delivered under its number.
  lemma DeliveredInTurn(s: State, ops: seq<Operation>, i: nat)
    requires Inv(s) && AllFresh(s, ops) && i < |s.accepted| && i < |Run(s, ops).delivered|
    ensures Run(s, ops).delivered[i] == s.accepted[i]
  {
    hide Run, Answered, Counted;
    RunKeeps(s, ops);
    RunGrows(s, ops);
    var later := Run(s, ops);
    assert later.accepted[i] == later.delivered[i];
    assert later.accepted[..|s.accepted|][i] == s.accepted[i];
  }

  // ---------- every request gets its event ----------

  // A reply to a request that waits produces its event, when there is memory and room, and in any case
  // the request leaves the list and is counted down.
  lemma ReplyToWaiting(s: State, i: nat, msgid: int, code: int, memory: bool)
    requires Inv(s) && i < |s.list| && s.list[i].msgid == msgid >= 0
    ensures var after := Reply(s, msgid, code, memory);
            && after.accepted == s.accepted + (if memory && |s.queue| < s.queueMax then [Outcome(msgid, s.list[i].devid, code)] else [])
            && after.list == RemoveAt(s.list, i) && after.listSize == s.listSize - 1
  {
    hide Count;
    FindIs(s.list, msgid);
    assert Waits(s.list, msgid);
    var k := WithoutRemoves(s.list, msgid);
    assert k == i;
  }

  // A reply that nobody waits for changes nothing.
  lemma ReplyToNobody(s: State, msgid: int, code: int, memory: bool)
    requires !Waits(s.list, msgid)
    ensures Reply(s, msgid, code, memory) == s
  {
    FindIs(s.list, msgid);
  }

  // What the tick leaves in the list: everything younger than ten seconds.
  function Young(list: seq<Entry>, now: nat): seq<Entry> {
    if list == [] then []
    else (if list[0].ctime + 10000 <= now then [] else [Aged(list[0], now)]) + Young(list[1..], now)
  }

  // The timeouts of the others, in their order, with the code of a timeout.
  function Timeouts(list: seq<Entry>, now: nat): seq<Event> {
    if list == [] then []
    else (if list[0].ctime + 10000 <= now then [Outcome(list[0].msgid, list[0].devid, 100000)] else []) + Timeouts(list[1..], now)
  }

  lemma {:induction false} TimeoutsAreFew(list: seq<Entry>, now: nat)
    ensures |Timeouts(list, now)| <= |list|
    decreases |list|
  {
    if list != [] {
      TimeoutsAreFew(list[1..], now);
    }
  }

  // With memory and room, the tick times out exactly the requests of ten seconds and more, and each of
  // them gets its event.
  lemma {:induction false} TickIs(s: State, i: nat, now: nat, memory: nat -> bool)
    requires i <= |s.list| && (forall n :: memory(n)) && |s.queue| + |s.list| - i <= s.queueMax
    ensures var after := TickFrom(s, i, now, memory);
            && after.list == s.list[..i] + Young(s.list[i..], now)
            && after.queue == s.queue + Timeouts(s.list[i..], now)
            && after.accepted == s.accepted + Timeouts(s.list[i..], now)
            && after.listSize == s.listSize && after.delivered == s.delivered
    decreases |s.list| - i
  {
    hide TickFrom;
    if i == |s.list| {
      TickDone(s, now, memory);
    } else {
      var next := TickTurn(s, i, now, memory);
      ListTurn(s.list, i, now);
      Parts(s.list, i, Aged(s.list[i], now));
      hide Young, Timeouts, Aged, RemoveAt;
      var rest := s.list[i + 1..];
      if s.list[i].ctime + 10000 <= now {
        var e := Outcome(s.list[i].msgid, s.list[i].devid, 100000);
        TickIs(next, i, now, memory);
        Assoc(s.queue, [e], Timeouts(rest, now));
        Assoc(s.accepted, [e], Timeouts(rest, now));
      } else {
        TickIs(next, i + 1, now, memory);
        Assoc(s.list[..i], [Aged(s.list[i], now)], Young(rest, now));
      }
    }
  }

  lemma Assoc<T>(a: seq<T>, b: seq<T>, c: seq<T>)
    ensures (a + b) + c == a + (b + c)
  {}

  lemma TickDone(s: State, now: nat, memory: nat -> bool)
    ensures TickFrom(s, |s.list|, now, memory) == s && Young(s.list[|s.list|..], now) == [] && Timeouts(s.list[|s.list|..], now) == []
    ensures s.list[..|s.list|] + Young(s.list[|s.list|..], now) == s.list
  {}

  // One turn of the walk.
  lemma TickTurn(s: State, i: nat, now: nat, memory: nat -> bool) returns (next: State)
    requires i < |s.list| && (forall n :: memory(n)) && |s.queue| < s.queueMax
    ensures var e := s.list[i];
            && next.listSize == s.listSize && next.delivered == s.delivered && next.queueMax == s.queueMax
            && if e.ctime + 10000 <= now then
                 && next.list == RemoveAt(s.list, i) && TickFrom(s, i, now, memory) == TickFrom(next, i, now, memory)
                 && next.queue == s.queue + [Outcome(e.msgid, e.devid, 100000)]
                 && next.accepted == s.accepted + [Outcome(e.msgid, e.devid, 100000)]
               else
                 && next.list == s.list[i := Aged(e, now)] && next.queue == s.queue && next.accepted == s.accepted
                 && TickFrom(s, i, now, memory) == TickFrom(next, i + 1, now, memory)
  {
    var e := s.list[i];
    if IsOld(e, now) {
      var sent := Enqueue(s, Outcome(e.msgid, e.devid, CODE_TIMEOUT), true);
      next := sent.(list := s.list[..i] + s.list[i + 1..], expired := s.expired + 1);
    } else {
      next := s.(list := s.list[i := Aged(e, now)]);
    }
  }

  lemma ListTurn(list: seq<Entry>, i: nat, now: nat)
    requires i < |list|
    ensures var e, rest := list[i], list[i + 1..];
            if e.ctime + 10000 <= now then
              && Young(list[i..], now) == Young(rest, now)
              && Timeouts(list[i..], now) == [Outcome(e.msgid, e.devid, 100000)] + Timeouts(rest, now)
            else
              && Young(list[i..], now) == [Aged(e, now)] + Young(rest, now)
              && Timeouts(list[i..], now) == Timeouts(rest, now)
  {
    assert list[i..][1..] == list[i + 1..];
  }

  // The list from place i on, with the entry there taken out, and with another in its place.
  lemma Parts(list: seq<Entry>, i: nat, x: Entry)
    requires i < |list|
    ensures |RemoveAt(list, i)| == |list| - 1 && RemoveAt(list, i)[..i] == list[..i] && RemoveAt(list, i)[i..] == list[i + 1..]
    ensures list[i := x][..i + 1] == list[..i] + [x] && list[i := x][i + 1..] == list[i + 1..]
  {}

  // Until it is ten seconds old, and while no reply to it comes, a request waits.
  predicate Quiet(ops: seq<Operation>, e: Entry) {
    forall k :: 0 <= k < |ops| ==> QuietOne(ops[k], e)
  }

  predicate QuietOne(op: Operation, e: Entry) {
    && (op.Answer? ==> op.msgid != e.msgid)
    && (op.Turn? ==> e.ctime <= op.now < e.ctime + 10000)
  }

  lemma {:induction false} TickLeaves(s: State, i: nat, now: nat, memory: nat -> bool, e: Entry)
    requires i <= |s.list| && e in s.list && e.ctime <= now < e.ctime + 10000
    ensures e in TickFrom(s, i, now, memory).list
    decreases |s.list| - i
  {
    if i < |s.list| {
      var c := s.list[i];
      if IsOld(c, now) {
        OtherStays(s.list, i, e);
        var sent := Enqueue(s, Outcome(c.msgid, c.devid, CODE_TIMEOUT), memory(|s.list| - i));
        TickLeaves(sent.(list := s.list[..i] + s.list[i + 1..], expired := s.expired + 1), i, now, memory, e);
      } else {
        AgedStays(s.list, i, e, now);
        TickLeaves(s.(list := s.list[i := Aged(c, now)]), i + 1, now, memory, e);
      }
    }
  }

  lemma OtherStays(list: seq<Entry>, i: nat, e: Entry)
    requires e in list && i < |list| && list[i] != e
    ensures e in list[..i] + list[i + 1..]
  {
    var k :| 0 <= k < |list| && list[k] == e;
    assert (list[..i] + list[i + 1..])[if k < i then k else k - 1] == e;
  }

  lemma AgedStays(list: seq<Entry>, i: nat, e: Entry, now: nat)
    requires e in list && i < |list| && e.ctime <= now
    ensures e in list[i := Aged(list[i], now)]
  {
    var k :| 0 <= k < |list| && list[k] == e;
    assert list[i := Aged(list[i], now)][k] == e;
  }

  lemma {:induction false} WithoutOther(list: seq<Entry>, msgid: int, e: Entry)
    requires e in list && e.msgid != msgid
    ensures e in Without(list, msgid)
    decreases |list|
  {
    if list[0].msgid != msgid && list[0] != e {
      WithoutOther(list[1..], msgid, e);
    }
  }

  lemma OneLeaves(s: State, op: Operation, e: Entry)
    requires e in s.list && QuietOne(op, e)
    ensures e in Apply(s, op).list
  {
    match op {
      case Answer(msgid, code, memory) => {
        WithoutOther(s.list, msgid, e);
      }
      case Turn(now, granted) => {
        TickLeaves(s, 0, now, granted, e);
        DeliverKeepsCache(Tick(s, now, granted), DISPATCH_MAX);
      }
      case _ => {}
    }
  }

  lemma {:induction false} StillWaits(s: State, ops: seq<Operation>, e: Entry)
    requires e in s.list && Quiet(ops, e)
    ensures e in Run(s, ops).list
    decreases |ops|
  {
    hide Apply, QuietOne;
    if ops != [] {
      assert QuietOne(ops[0], e);
      OneLeaves(s, ops[0], e);
      forall k | 0 <= k < |ops[1..]| ensures QuietOne(ops[1..][k], e) {
        assert ops[1..][k] == ops[k + 1];
      }
      StillWaits(Apply(s, ops[0]), ops[1..], e);
    }
  }

  // A request that is cached and answered in time, with room in the queue, has exactly one event for
  // ever: that of its reply, with its device and the code that came.
  lemma AnsweredInTime(s: State, e: Entry, before: seq<Operation>, code: int, after: seq<Operation>)
    requires Inv(s) && 0 <= e.msgid && e.msgid !in s.issued && |s.list| + s.expired < 50 && Quiet(before, e)
    requires AllFresh(Insert(s, e, true), before)
    requires var waiting := Run(Insert(s, e, true), before);
             |waiting.queue| < waiting.queueMax && AllFresh(Reply(waiting, e.msgid, code, true), after)
    ensures var waiting := Run(Insert(s, e, true), before);
            var last := Run(Reply(waiting, e.msgid, code, true), after);
            && Count(last.accepted, e.msgid) == 1
            && |waiting.accepted| < |last.accepted|
            && last.accepted[|waiting.accepted|] == Outcome(e.msgid, e.devid, code)
  {
    InsertKeeps(s, e, true);
    var cached := Insert(s, e, true);
    assert e in cached.list;
    hide Insert, Answered, Counted;
    RunKeeps(cached, before);
    StillWaits(cached, before, e);
    var waiting := Run(cached, before);
    var i :| 0 <= i < |waiting.list| && waiting.list[i] == e;
    ReplyToWaiting(waiting, i, e.msgid, code, true);
    ReplyKeeps(waiting, e.msgid, code, true);
    var replied := Reply(waiting, e.msgid, code, true);
    RunKeeps(replied, after);
    RunGrows(replied, after);
    var last := Run(replied, after);
    hide Run, Reply;
    var n := |waiting.accepted|;
    assert last.accepted[..n + 1][n] == replied.accepted[n] == Outcome(e.msgid, e.devid, code);
    AcceptedOnce(last, n, e.msgid);
  }

  lemma AcceptedOnce(s: State, n: nat, msgid: int)
    requires Inv(s) && n < |s.accepted| && About(s.accepted[n], msgid)
    ensures Count(s.accepted, msgid) == 1
  {
    CountHolds(s.accepted, n, msgid);
  }

  lemma {:induction false} CountHolds(events: seq<Event>, n: nat, msgid: int)
    requires n < |events| && About(events[n], msgid)
    ensures Count(events, msgid) >= 1
    decreases |events|
  {
    if n < |events| - 1 {
      CountHolds(events[..|events| - 1], n, msgid);
    }
  }

  // ---------- the code ----------

  // The context of the cache and that of the queue.  Whether an allocation succeeds is a parameter.
  class Messages {
    var list: seq<Entry>
    var listSize: int
    var queue: seq<Event>
    var size: int
    const maxSize: nat
    ghost var accepted: seq<Event>
    ghost var delivered: seq<Event>
    ghost var issued: set<int>
    ghost var expired: nat

    ghost function View(): State
      reads this
    {
      State(list, listSize, queue, maxSize, accepted, delivered, issued, expired)
    }

    // The size that the queue keeps is its length.
    ghost predicate Valid()
      reads this
    {
      size == |queue|
    }

    constructor (maxSize: nat)
      ensures Valid() && View() == Initial(maxSize)
    {
      list, listSize, queue, size, this.maxSize := [], 0, [], 0, maxSize;
      accepted, delivered, issued, expired := [], [], {}, 0;
    }

    method CacheInsert(msgid: int, devid: int, now: nat, memory: bool) returns (ok: bool)
      requires Valid()
      modifies this
      ensures Valid() && View() == Insert(old(View()), Entry(msgid, devid, now), memory)
      ensures ok <==> old(listSize) < CACHE_MAX && memory
    {
      ok := listSize < CACHE_MAX && memory;
      if ok {
        list := list + [Entry(msgid, devid, now)];
        listSize := listSize + 1;
        issued := issued + {msgid};
      }
    }

    method CacheSearch(msgid: int) returns (node: Option<Entry>)
      ensures node == if msgid < 0 then None else Find(list, msgid)
    {
      node := None;
      if msgid < 0 {
        return;
      }
      var i := 0;
      assert list[0..] == list;
      while i < |list|
        invariant i <= |list| && Find(list[i..], msgid) == Find(list, msgid)
      {
        if list[i].msgid == msgid {
          return Some(list[i]);
        }
        assert list[i..][1..] == list[i + 1..];
        i := i + 1;
      }
    }

    method CacheRemove(msgid: int)
      requires Valid()
      modifies this`list, this`listSize
      ensures View() == Remove(old(View()), msgid)
    {
      hide Find, Without;
      var i := 0;
      assert list[0..] == list && list[..0] + Without(list, msgid) == Without(list, msgid);
      while i < |list|
        invariant i <= |list| && View() == old(View())
        invariant Find(list[i..], msgid) == Find(list, msgid) && list[..i] + Without(list[i..], msgid) == Without(list, msgid)
      {
        RemoveTurn(list, i, msgid);
        if list[i].msgid == msgid {
          list := list[..i] + list[i + 1..];
          listSize := listSize - 1;
          return;
        }
        i := i + 1;
      }
      NothingLeft(list, msgid);
    }

    lemma RemoveTurn(list: seq<Entry>, i: nat, msgid: int)
      requires i < |list|
      ensures list[i].msgid == msgid ==> Find(list[i..], msgid).Some? && Without(list[i..], msgid) == list[i + 1..]
      ensures list[i].msgid != msgid ==>
                && Find(list[i..], msgid) == Find(list[i + 1..], msgid)
                && list[..i] + Without(list[i..], msgid) == list[..i + 1] + Without(list[i + 1..], msgid)
    {
      assert list[i..][1..] == list[i + 1..];
      assert list[..i] + ([list[i]] + Without(list[i + 1..], msgid)) == list[..i + 1] + Without(list[i + 1..], msgid);
    }

    lemma NothingLeft(list: seq<Entry>, msgid: int)
      ensures Find(list[|list|..], msgid).None?
    {}

    // dm_ipc_msg_insert, with the allocation of the event in front of it.
    method SendToUser(e: Event, memory: bool) returns (ok: bool)
      requires Valid()
      modifies this`queue, this`size, this`accepted
      ensures Valid() && View() == Enqueue(old(View()), e, memory)
      ensures ok <==> memory && |old(queue)| < maxSize
    {
      ok := memory && size < maxSize;
      if ok {
        queue := queue + [e];
        size := size + 1;
        accepted := accepted + [e];
      }
    }

    method MsgNext() returns (data: Option<Event>)
      requires Valid()
      modifies this`queue, this`size, this`delivered
      ensures Valid() && View() == Deliver(old(View()), 1)
      ensures data == if old(queue) == [] then None else Some(old(queue)[0])
      ensures delivered == old(delivered) + if data.Some? then [data.value] else []
    {
      data := None;
      if |queue| > 0 {
        data := Some(queue[0]);
        delivered := delivered + [queue[0]];
        queue := queue[1..];
        size := size - 1;
      }
    }

    // dm_msg_proc_thing_reply, dm_msg_proc_thing_topo_add_reply and dm_msg_proc_thing_topo_delete_reply.
    method ProcReply(msgid: int, code: int, memory: bool)
      requires Valid()
      modifies this
      ensures Valid() && View() == Reply(old(View()), msgid, code, memory)
    {
      hide Find, Without;
      var node := CacheSearch(msgid);
      if node.Some? {
        var _ := SendToUser(Outcome(msgid, node.value.devid, code), memory);
      }
      CacheRemove(msgid);
    }

    method CacheTick(now: nat, memory: nat -> bool)
      requires Valid()
      modifies this
      ensures Valid() && View() == Tick(old(View()), now, memory)
    {
      var i := 0;
      while i < |list|
        invariant i <= |list| && Valid() && TickFrom(View(), i, now, memory) == Tick(old(View()), now, memory)
        decreases |list| - i
      {
        if now < list[i].ctime {
          list := list[i := list[i].(ctime := now)];
        } else {
          assert list[i := list[i]] == list;
        }
        var e := list[i];
        if now - e.ctime >= TIMEOUT_MS {
          var _ := SendToUser(Outcome(e.msgid, e.devid, CODE_TIMEOUT), memory(|list| - i));
          list := list[..i] + list[i + 1..];
          expired := expired + 1;
        } else {
          i := i + 1;
        }
      }
    }

    // iotx_dm_dispatch: the timeouts first, then at most fifty events to the callback.
    method DispatchAll(now: nat, memory: nat -> bool) returns (handed: seq<Event>)
      requires Valid()
      modifies this
      ensures Valid() && View() == Dispatch(old(View()), now, memory)
      ensures delivered == old(delivered) + handed
    {
      CacheTick(now, memory);
      TickGrows(old(View()), 0, now, memory);
      handed := DeliverQueue();
    }

    method DeliverQueue() returns (handed: seq<Event>)
      requires Valid()
      modifies this`queue, this`size, this`delivered
      ensures Valid() && View() == Deliver(old(View()), DISPATCH_MAX)
      ensures delivered == old(delivered) + handed
    {
      handed := [];
      var count := 0;
      var more := true;
      while count < DISPATCH_MAX && more
        invariant count <= DISPATCH_MAX && Valid() && (more || queue == [])
        invariant Deliver(View(), DISPATCH_MAX - count) == Deliver(old(View()), DISPATCH_MAX)
        invariant delivered == old(delivered) + handed
        decreases DISPATCH_MAX - count
      {
        count := count + 1;
        var data := MsgNext();
        more := data.Some?;
        if more {
          handed := handed + [data.value];
        }
      }
    }
  }
}
