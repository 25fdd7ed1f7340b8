// The synchronous calls of src/dev_model/impl_enos.c (login, logout, add topology, delete topology):
// reporting threads that take turns under the API mutex, and one dispatching thread that wakes
// them under the upstream mutex.  Every step below is one access to shared state.
module SyncCalls {
  import opened Options

  const CODE_SUCCESS: int := 200
  const SUCCESS_RETURN: int := 0
  const REFUSED_BY_CLOUD: int := -0x0921

  datatype Semaphore = Semaphore(count: nat, destroyed: nat)

  // A node of the waiter list; `since` is how many replies had been dispatched when it was inserted.
  datatype Waiter = Waiter(msgid: int, sem: nat, code: int, freed: bool, since: nat)

  datatype Reply = Reply(msgid: int, code: int)

  datatype Result = Success | Refused | Failed

  // What a call returned, and the replies that were dispatched while it was on the list.
  datatype Outcome = Outcome(msgid: int, result: Result, since: nat, until: nat)

  datatype Owner = Nobody | Thread(id: nat) | Dispatcher

  // Where a reporting thread stands in its call.
  datatype Caller =
    | Idle
    | Entered
    | Sent(msgid: int)
    | Created(msgid: int, sem: nat)
    | Inserting(msgid: int, sem: nat)
    | Listed(msgid: int, node: nat)
    | Waiting(msgid: int, node: nat)
    | TimedOut(msgid: int, node: nat)
    | Cleaning(msgid: int, node: nat)
    | Woken(msgid: int, node: nat)
    | Reading(msgid: int, node: nat)
    | Removing(msgid: int, node: nat, code: int, until: nat)
    | Leaving(outcome: Outcome)
    | Returning(outcome: Outcome)

  // Where the dispatching thread stands with one reply event.
  datatype Dispatch =
    | Ready
    | Searching(reply: Reply)
    | Setting(reply: Reply, node: nat)
    | Posting(node: nat)
    | Finished

  // `fault` is set by any access that C leaves undefined: a freed node, a destroyed semaphore.
  datatype State = State(
    api: Owner,
    upstream: Owner,
    callers: map<nat, Caller>,
    dispatch: Dispatch,
    sems: seq<Semaphore>,
    waiters: seq<Waiter>,
    list: seq<nat>,
    log: seq<Reply>,
    outcomes: seq<Outcome>,
    fault: bool
  )

  datatype Step =
    | Enter(t: nat)
    | Decline(t: nat)
    | Send(t: nat, msgid: int)
    | Create(t: nat, ok: bool)
    | LockToInsert(t: nat)
    | Insert(t: nat, memory: bool)
    | UnlockAndWait(t: nat)
    | Wake(t: nat)
    | TimeOut(t: nat)
    | LockToClean(t: nat)
    | Clean(t: nat)
    | LockToRead(t: nat)
    | ReadCode(t: nat)
    | Remove(t: nat)
    | Unlock(t: nat)
    | SubscribeFails(t: nat)
    | Return(t: nat)
    | Close
    | Receive(reply: Reply)
    | Search
    | SetCode
    | Post
    | Finish

  // ---------- the list operations (src/dev_model/impl_enos.c:300-375) ----------

  // The first node of the list with the message id.
  function Find(list: seq<nat>, waiters: seq<Waiter>, msgid: int): (r: Option<nat>)
    requires forall i :: 0 <= i < |list| ==> list[i] < |waiters|
    ensures r.Some? ==> r.value in list && r.value < |waiters| && waiters[r.value].msgid == msgid
    ensures r.None? ==> forall i :: 0 <= i < |list| ==> waiters[list[i]].msgid != msgid
  {
    if list == [] then None
    else if waiters[list[0]].msgid == msgid then Some(list[0])
    else Find(list[1..], waiters, msgid)
  }

  function Unlink(list: seq<nat>, node: nat): seq<nat> {
    if list == [] then []
    else if list[0] == node then list[1..]
    else [list[0]] + Unlink(list[1..], node)
  }

  predicate Shape(s: State) {
    && (forall i :: 0 <= i < |s.list| ==> s.list[i] < |s.waiters|)
    && (forall w :: 0 <= w < |s.waiters| ==> s.waiters[w].sem < |s.sems|)
  }

  function DestroySemaphore(s: State, sem: nat): State
    requires sem < |s.sems|
  {
    var was := s.sems[sem];
    s.(sems := s.sems[sem := was.(destroyed := was.destroyed + 1)], fault := s.fault || was.destroyed > 0)
  }

  // Search, destroy the semaphore, unlink and free; nothing if there is no such node.
  function ListRemove(s: State, msgid: int): State
    requires Shape(s)
  {
    match Find(s.list, s.waiters, msgid)
    case None => s
    case Some(n) =>
      var freed := s.waiters[n].(freed := true);
      DestroySemaphore(s, s.waiters[n].sem).(list := Unlink(s.list, n), waiters := s.waiters[n := freed],
                                             fault := s.fault || s.waiters[n].freed || s.sems[s.waiters[n].sem].destroyed > 0)
  }

  // Every node of the list: unlink, destroy, free.
  function ListDestroy(s: State): State
    requires Shape(s)
    decreases |s.list|
  {
    if s.list == [] then s
    else
      var n := s.list[0];
      var after := DestroySemaphore(s, s.waiters[n].sem);
      var freed := s.waiters[n].(freed := true);
      ListDestroy(after.(list := s.list[1..], waiters := s.waiters[n := freed], fault := after.fault || s.waiters[n].freed))
  }

  // ---------- the steps ----------

  predicate Enabled(s: State, step: Step) {
    match step
    case Close => s.api == Nobody
    case Receive(_) => s.dispatch == Ready && s.upstream == Nobody
    case Search => s.dispatch.Searching?
    case SetCode => s.dispatch.Setting?
    case Post => s.dispatch.Posting?
    case Finish => s.dispatch == Finished
    case _ => step.t in s.callers && CallerEnabled(s, step, s.callers[step.t])
  }

  predicate CallerEnabled(s: State, step: Step, c: Caller) {
    match step
    case Enter(_) => c == Idle && s.api == Nobody
    case Decline(_) => c == Entered
    case Send(_, _) => c == Entered
    case Create(_, _) => c.Sent?
    case LockToInsert(_) => c.Created? && s.upstream == Nobody
    case Insert(_, _) => c.Inserting?
    case UnlockAndWait(_) => c.Listed?
    case Wake(_) => c.Waiting? && c.node < |s.waiters| && s.waiters[c.node].sem < |s.sems| && s.sems[s.waiters[c.node].sem].count > 0
    case TimeOut(_) => c.Waiting?
    case LockToClean(_) => c.TimedOut? && s.upstream == Nobody
    case Clean(_) => c.Cleaning?
    case LockToRead(_) => c.Woken? && s.upstream == Nobody
    case ReadCode(_) => c.Reading?
    case Remove(_) => c.Removing?
    case Unlock(_) => c.Leaving?
    case SubscribeFails(_) => c.Returning? && c.outcome.result == Success
    case Return(_) => c.Returning?
    case _ => false
  }

  function At(s: State, t: nat, c: Caller): State {
    s.(callers := s.callers[t := c])
  }

  function Do(s: State, step: Step): State
    requires Shape(s) && Enabled(s, step)
  {
    match step
    case Close => ListDestroy(s)
    case Receive(reply) => s.(upstream := Dispatcher, dispatch := Searching(reply))
    case Search =>
      (match Find(s.list, s.waiters, s.dispatch.reply.msgid)
       case None => s.(dispatch := Finished, log := s.log + [s.dispatch.reply])
       case Some(n) => s.(dispatch := Setting(s.dispatch.reply, n)))
    case SetCode => DoSetCode(s)
    case Post => DoPost(s)
    case Finish => s.(upstream := Nobody, dispatch := Ready)
    case _ => DoCaller(s, step, step.t, s.callers[step.t])
  }

  function DoSetCode(s: State): State
    requires s.dispatch.Setting?
  {
    var n := s.dispatch.node;
    if n >= |s.waiters| then s.(fault := true)
    else
      var code := if s.dispatch.reply.code == CODE_SUCCESS then SUCCESS_RETURN else REFUSED_BY_CLOUD;
      s.(waiters := s.waiters[n := s.waiters[n].(code := code)], log := s.log + [s.dispatch.reply], dispatch := Posting(n),
         fault := s.fault || s.waiters[n].freed)
  }

  function DoPost(s: State): State
    requires Shape(s) && s.dispatch.Posting?
  {
    var n := s.dispatch.node;
    if n >= |s.waiters| then s.(fault := true)
    else
      var sem := s.waiters[n].sem;
      s.(sems := s.sems[sem := s.sems[sem].(count := s.sems[sem].count + 1)], dispatch := Finished,
         fault := s.fault || s.waiters[n].freed || s.sems[sem].destroyed > 0)
  }

  function DoCaller(s: State, step: Step, t: nat, c: Caller): State
    requires Shape(s) && CallerEnabled(s, step, c)
  {
    match step
    case Enter(_) => At(s, t, Entered).(api := Thread(t))
    case Decline(_) => At(s, t, Returning(Outcome(0, Failed, 0, 0)))
    case Send(_, msgid) => At(s, t, Sent(msgid))
    case Create(_, ok) =>
      if ok then At(s, t, Created(c.msgid, |s.sems|)).(sems := s.sems + [Semaphore(0, 0)])
      else At(s, t, Returning(Outcome(c.msgid, Failed, 0, 0)))
    case LockToInsert(_) => At(s, t, Inserting(c.msgid, c.sem)).(upstream := Thread(t))
    case Insert(_, memory) => DoInsert(s, t, c, memory)
    case UnlockAndWait(_) => At(s, t, Waiting(c.msgid, c.node)).(upstream := Nobody)
    case Wake(_) =>
      var sem := s.waiters[c.node].sem;
      At(s, t, Woken(c.msgid, c.node)).(sems := s.sems[sem := s.sems[sem].(count := s.sems[sem].count - 1)],
                                        fault := s.fault || s.sems[sem].destroyed > 0)
    case TimeOut(_) => At(s, t, TimedOut(c.msgid, c.node))
    case LockToClean(_) => At(s, t, Cleaning(c.msgid, c.node)).(upstream := Thread(t))
    case Clean(_) => At(ListRemove(s, c.msgid), t, Leaving(Outcome(c.msgid, Failed, 0, 0)))
    case LockToRead(_) => At(s, t, Reading(c.msgid, c.node)).(upstream := Thread(t))
    case ReadCode(_) =>
      if c.node >= |s.waiters| then s.(fault := true)
      else At(s, t, Removing(c.msgid, c.node, s.waiters[c.node].code, |s.log|)).(fault := s.fault || s.waiters[c.node].freed)
    case Remove(_) =>
      var result := if c.code == SUCCESS_RETURN then Success else Refused;
      var since := if c.node < |s.waiters| then s.waiters[c.node].since else 0;
      At(ListRemove(s, c.msgid), t, Leaving(Outcome(c.msgid, result, since, c.until)))
    case Unlock(_) => At(s, t, Returning(c.outcome)).(upstream := Nobody)
    case SubscribeFails(_) => At(s, t, Returning(c.outcome.(result := Failed)))
    case Return(_) => At(s, t, Idle).(api := Nobody, outcomes := s.outcomes + [c.outcome])
  }

  // Another node with the message id, or no memory: the semaphore goes at once.
  function DoInsert(s: State, t: nat, c: Caller, memory: bool): State
    requires Shape(s) && c.Inserting?
  {
    if c.sem >= |s.sems| then s.(fault := true)
    else if Find(s.list, s.waiters, c.msgid).Some? || !memory then
      At(DestroySemaphore(s, c.sem), t, Leaving(Outcome(c.msgid, Failed, 0, 0)))
    else
      At(s, t, Listed(c.msgid, |s.waiters|)).(
        waiters := s.waiters + [Waiter(c.msgid, c.sem, SUCCESS_RETURN, false, |s.log|)], list := [|s.waiters|] + s.list)
  }

  // ---------- runs ----------

  predicate Start(s: State) {
    && s.api == Nobody && s.upstream == Nobody && s.dispatch == Ready
    && (forall t :: t in s.callers ==> s.callers[t] == Idle)
    && s.sems == [] && s.waiters == [] && s.list == [] && s.log == [] && s.outcomes == [] && !s.fault
  }

  // A run: every next state comes from an enabled step.
  predicate IsRun(states: seq<State>, steps: seq<Step>) {
    && |states| == |steps| + 1 && Start(states[0])
    && forall i :: 0 <= i < |steps| ==> IsStep(states[i], steps[i], states[i + 1])
  }

  predicate IsStep(s: State, step: Step, next: State) {
    Shape(s) && Enabled(s, step) && next == Do(s, step)
  }

  // ---------- what holds in every state ----------

  // The caller that holds the API mutex.
  function Current(s: State): Caller {
    if s.api.Thread? && s.api.id in s.callers then s.callers[s.api.id] else Idle
  }

  predicate HoldsUpstream(c: Caller) {
    c.Inserting? || c.Listed? || c.Cleaning? || c.Reading? || c.Removing? || c.Leaving?
  }

  predicate OnList(c: Caller) {
    c.Listed? || c.Waiting? || c.TimedOut? || c.Cleaning? || c.Woken? || c.Reading? || c.Removing?
  }

  // The code of the last reply to msgid among the replies from number since on.
  function LastCode(log: seq<Reply>, since: nat, msgid: int): Option<int> {
    if |log| <= since then None
    else if log[|log| - 1].msgid == msgid then Some(log[|log| - 1].code)
    else LastCode(log[..|log| - 1], since, msgid)
  }

  function CodeOf(last: Option<int>): int {
    if last == None || last == Some(CODE_SUCCESS) then SUCCESS_RETURN else REFUSED_BY_CLOUD
  }

  // A call that says success was answered with 200, by the last reply to its own message id that was
  // dispatched while it waited; one that says refused was answered with another code.
  predicate IsTrue(o: Outcome, log: seq<Reply>) {
    && o.since <= |log| && o.until <= |log|
    && var last := LastCode(log[..o.until], o.since, o.msgid);
    && (o.result == Success ==> last == Some(CODE_SUCCESS))
    && (o.result == Refused ==> last.Some? && last.value != CODE_SUCCESS)
  }

  predicate Mutexes(s: State) {
    && (forall t :: t in s.callers && s.callers[t] != Idle ==> s.api == Thread(t))
    && s.api != Dispatcher && (s.api.Thread? ==> s.api.id in s.callers && s.callers[s.api.id] != Idle)
    && (s.upstream.Thread? <==> HoldsUpstream(Current(s)))
    && (s.upstream.Thread? ==> s.upstream == s.api)
    && (s.upstream == Dispatcher <==> s.dispatch != Ready)
  }

  // The semaphore of the call in progress.
  function CurrentSem(s: State): Option<nat> {
    var c := Current(s);
    if c.Created? || c.Inserting? then Some(c.sem)
    else if OnList(c) && c.node < |s.waiters| then Some(s.waiters[c.node].sem)
    else None
  }

  // Every semaphore of a finished call is destroyed, once; that of the call in progress is not.
  predicate Semaphores(s: State) {
    && (forall k :: 0 <= k < |s.sems| ==> s.sems[k].destroyed == if CurrentSem(s) == Some(k) then 0 else 1)
    && (CurrentSem(s).Some? ==> CurrentSem(s).value < |s.sems|)
    && (Current(s).Created? || Current(s).Inserting? ==> s.sems[Current(s).sem].count == 0)
  }

  predicate List(s: State) {
    var c := Current(s);
    if OnList(c) then
      && s.list == [c.node] && c.node < |s.waiters|
      && !s.waiters[c.node].freed && s.waiters[c.node].msgid == c.msgid
    else s.list == []
  }

  predicate Codes(s: State) {
    var c := Current(s);
    if OnList(c) && c.node < |s.waiters| && s.waiters[c.node].sem < |s.sems| then
      var w := s.waiters[c.node];
      var last := LastCode(s.log, w.since, w.msgid);
      && w.since <= |s.log| && w.code == CodeOf(last)
      && (s.sems[w.sem].count > 0 || s.dispatch.Posting? || c.Woken? || c.Reading? || c.Removing? ==> last.Some?)
      && (c.Removing? ==> c.until == |s.log| && c.code == w.code)
    else true
  }

  predicate Dispatching(s: State) {
    && (s.dispatch.Setting? ==>
          && s.list == [s.dispatch.node] && s.dispatch.node < |s.waiters|
          && s.waiters[s.dispatch.node].msgid == s.dispatch.reply.msgid)
    && (s.dispatch.Posting? ==> s.list == [s.dispatch.node])
  }

  predicate Outcomes(s: State) {
    var c := Current(s);
    && (c.Leaving? || c.Returning? ==> IsTrue(c.outcome, s.log))
    && forall i :: 0 <= i < |s.outcomes| ==> IsTrue(s.outcomes[i], s.log)
  }

  predicate Inv(s: State) {
    Shape(s) && !s.fault && Mutexes(s) && List(s) && Semaphores(s) && Codes(s) && Dispatching(s) && Outcomes(s)
  }

  lemma StartInv(s: State)
    requires Start(s)
    ensures Inv(s)
  {}

  lemma InvKept(s: State, step: Step)
    requires Inv(s) && Enabled(s, step)
    ensures Inv(Do(s, step))
  {
    hide *;
    match step {
      case Close => CloseKeeps(s);
      case Receive(_) => DispatchKeeps(s, step);
      case Search => SearchKeeps(s);
      case SetCode => SetCodeKeeps(s);
      case Post => PostKeeps(s);
      case Finish => DispatchKeeps(s, step);
      case Create(_, _) => CreateKeeps(s, step);
      case Insert(_, _) => InsertKeeps(s, step);
      case Wake(_) => WakeKeeps(s, step);
      case Clean(_) => CleanKeeps(s, step);
      case Remove(_) => RemoveKeeps(s, step);
      case ReadCode(_) => ReadKeeps(s, step);
      case _ => MoveKeeps(s, step);
    }
  }

  lemma CloseKeeps(s: State)
    requires Inv(s) && Enabled(s, Close)
    ensures Inv(Do(s, Close)) && Do(s, Close) == s
  {
    hide Shape, Mutexes, Semaphores, Codes, Dispatching, Outcomes;
  }

  lemma LogGrows(log: seq<Reply>, reply: Reply, since: nat, msgid: int)
    requires since <= |log|
    ensures LastCode(log + [reply], since, msgid) ==
            if reply.msgid == msgid then Some(reply.code) else LastCode(log, since, msgid)
  {
    assert (log + [reply])[..|log|] == log;
  }

  lemma OutcomesKept(s: State, reply: Reply)
    requires Outcomes(s)
    ensures forall o: Outcome :: IsTrue(o, s.log) ==> IsTrue(o, s.log + [reply])
  {
    forall o: Outcome | IsTrue(o, s.log) ensures IsTrue(o, s.log + [reply]) {
      assert (s.log + [reply])[..o.until] == s.log[..o.until];
    }
  }

  lemma DispatchKeeps(s: State, step: Step)
    requires Inv(s) && Enabled(s, step) && (step.Receive? || step.Finish?)
    ensures Inv(Do(s, step))
  {
    hide LastCode, IsTrue;
  }

  lemma SearchKeeps(s: State)
    requires Inv(s) && Enabled(s, Search)
    ensures Inv(Do(s, Search))
  {
    hide LastCode, IsTrue;
    OutcomesKept(s, s.dispatch.reply);
    var c := Current(s);
    if OnList(c) {
      assert s.list[0] == c.node;
      LogGrows(s.log, s.dispatch.reply, s.waiters[c.node].since, c.msgid);
    }
  }

  lemma SetCodeKeeps(s: State)
    requires Inv(s) && Enabled(s, SetCode)
    ensures Inv(Do(s, SetCode))
  {
    hide LastCode, IsTrue;
    OutcomesKept(s, s.dispatch.reply);
    LogGrows(s.log, s.dispatch.reply, s.waiters[s.dispatch.node].since, s.dispatch.reply.msgid);
  }

  lemma PostKeeps(s: State)
    requires Inv(s) && Enabled(s, Post)
    ensures Inv(Do(s, Post))
  {
    hide LastCode, IsTrue;
  }

  lemma CreateKeeps(s: State, step: Step)
    requires Inv(s) && Enabled(s, step) && step.Create?
    ensures Inv(Do(s, step))
  {
    hide LastCode;
  }

  lemma InsertKeeps(s: State, step: Step)
    requires Inv(s) && Enabled(s, step) && step.Insert?
    ensures Inv(Do(s, step))
  {
    assert forall msgid :: LastCode(s.log, |s.log|, msgid) == None;
    hide LastCode;
  }

  lemma WakeKeeps(s: State, step: Step)
    requires Inv(s) && Enabled(s, step) && step.Wake?
    ensures Inv(Do(s, step))
  {
    hide LastCode, IsTrue;
  }

  lemma ReadKeeps(s: State, step: Step)
    requires Inv(s) && Enabled(s, step) && step.ReadCode?
    ensures Inv(Do(s, step))
  {
    hide LastCode, IsTrue;
  }

  // The node that a call removes is its own, and the only one.
  lemma RemovesOwn(s: State)
    requires Inv(s) && OnList(Current(s))
    ensures var c := Current(s); var sem := s.waiters[c.node].sem;
            ListRemove(s, c.msgid) == s.(list := [], waiters := s.waiters[c.node := s.waiters[c.node].(freed := true)],
                                         sems := s.sems[sem := s.sems[sem].(destroyed := 1)])
  {
    hide Codes, Outcomes, Dispatching;
  }

  lemma CleanKeeps(s: State, step: Step)
    requires Inv(s) && Enabled(s, step) && step.Clean?
    ensures Inv(Do(s, step))
  {
    hide LastCode, ListRemove;
    RemovesOwn(s);
    assert s.log[..0] == [];
  }

  lemma RemoveKeeps(s: State, step: Step)
    requires Inv(s) && Enabled(s, step) && step.Remove?
    ensures Inv(Do(s, step))
  {
    hide LastCode, ListRemove;
    RemovesOwn(s);
    assert s.log[..|s.log|] == s.log;
  }

  // The steps that move a caller and touch nothing but the mutexes.
  lemma MoveKeeps(s: State, step: Step)
    requires Inv(s) && Enabled(s, step)
    requires step.Enter? || step.Decline? || step.Send? || step.LockToInsert? || step.UnlockAndWait? || step.TimeOut?
          || step.LockToClean? || step.LockToRead? || step.Unlock? || step.SubscribeFails? || step.Return?
    ensures Inv(Do(s, step))
  {
    hide *;
    match step {
      case Enter(_) => TurnKeeps(s, step);
      case Return(_) => TurnKeeps(s, step);
      case Decline(_) => EndKeeps(s, step);
      case Send(_, _) => SendKeeps(s, step);
      case TimeOut(_) => TimeOutKeeps(s, step);
      case SubscribeFails(_) => EndKeeps(s, step);
      case Unlock(_) => UnlockKeeps(s, step);
      case UnlockAndWait(_) => WaitKeeps(s, step);
      case LockToInsert(_) => LockToInsertKeeps(s, step);
      case _ => LockKeeps(s, step);
    }
  }

  lemma LockKeeps(s: State, step: Step)
    requires Inv(s) && Enabled(s, step) && (step.LockToClean? || step.LockToRead?)
    ensures Inv(Do(s, step))
  {
    hide LastCode, IsTrue;
  }

  lemma LockToInsertKeeps(s: State, step: Step)
    requires Inv(s) && Enabled(s, step) && step.LockToInsert?
    ensures Inv(Do(s, step))
  {
    hide LastCode, IsTrue;
  }

  lemma WaitKeeps(s: State, step: Step)
    requires Inv(s) && Enabled(s, step) && step.UnlockAndWait?
    ensures Inv(Do(s, step))
  {
    hide LastCode, IsTrue;
  }

  lemma UnlockKeeps(s: State, step: Step)
    requires Inv(s) && Enabled(s, step) && step.Unlock?
    ensures Inv(Do(s, step))
  {
    hide LastCode, IsTrue;
  }

  lemma TurnKeeps(s: State, step: Step)
    requires Inv(s) && Enabled(s, step) && (step.Enter? || step.Return?)
    ensures Inv(Do(s, step))
  {
    hide LastCode, IsTrue, CodeOf;
  }

  lemma TimeOutKeeps(s: State, step: Step)
    requires Inv(s) && Enabled(s, step) && step.TimeOut?
    ensures Inv(Do(s, step))
  {
    hide LastCode, CodeOf, IsTrue;
  }

  lemma SendKeeps(s: State, step: Step)
    requires Inv(s) && Enabled(s, step) && step.Send?
    ensures Inv(Do(s, step))
  {
    hide LastCode, CodeOf, IsTrue;
  }

  lemma EndKeeps(s: State, step: Step)
    requires Inv(s) && Enabled(s, step) && (step.Decline? || step.SubscribeFails?)
    ensures Inv(Do(s, step))
  {
    hide LastCode, Codes, Dispatching;
    assert Do(s, step).log == s.log;
    CodesKept(s, step);
  }

  lemma CodesKept(s: State, step: Step)
    requires Inv(s) && Enabled(s, step) && (step.Decline? || step.SubscribeFails?)
    ensures Codes(Do(s, step)) && Dispatching(Do(s, step))
  {
    hide LastCode, CodeOf, IsTrue;
  }

  // ---------- the safety of every run ----------

  lemma {:induction false} RunInv(states: seq<State>, steps: seq<Step>, i: nat)
    requires IsRun(states, steps) && i < |states|
    ensures Inv(states[i])
    decreases i
  {
    hide Enabled, Inv, Start, Do;
    if i == 0 {
      StartInv(states[0]);
    } else {
      RunInv(states, steps, i - 1);
      assert IsStep(states[i - 1], steps[i - 1], states[i]);
      InvKept(states[i - 1], steps[i - 1]);
    }
  }

  // In every interleaving: no freed node and no destroyed semaphore is ever touched, the list never
  // holds more than one node, and no semaphore is destroyed twice; when no call is in progress the
  // list is empty and every semaphore that was ever created has been destroyed exactly once.
  lemma RunsAreSafe(states: seq<State>, steps: seq<Step>, i: nat)
    requires IsRun(states, steps) && i < |states|
    ensures var s := states[i];
            && !s.fault && |s.list| <= 1
            && (forall k :: 0 <= k < |s.sems| ==> s.sems[k].destroyed <= 1)
            && (s.api == Nobody ==> s.list == [] && forall k :: 0 <= k < |s.sems| ==> s.sems[k].destroyed == 1)
  {
    RunInv(states, steps, i);
  }

  // The post of the dispatching thread always meets a live semaphore of a node on the list.
  lemma PostsAreLive(states: seq<State>, steps: seq<Step>, i: nat)
    requires IsRun(states, steps) && i < |steps| && steps[i] == Post
    ensures var s := states[i];
            && s.dispatch.Posting? && s.dispatch.node in s.list && s.dispatch.node < |s.waiters|
            && !s.waiters[s.dispatch.node].freed && s.waiters[s.dispatch.node].sem < |s.sems|
            && s.sems[s.waiters[s.dispatch.node].sem].destroyed == 0
  {
    RunInv(states, steps, i);
    assert IsStep(states[i], steps[i], states[i + 1]);
    assert states[i].list[0] == states[i].dispatch.node;
  }

  // Closing the master destroys no waiter: nobody is on the list while the API mutex is free.
  lemma CloseFindsNoWaiter(states: seq<State>, steps: seq<Step>, i: nat)
    requires IsRun(states, steps) && i < |steps| && steps[i] == Close
    ensures states[i + 1] == states[i]
  {
    hide Inv;
    RunInv(states, steps, i);
    assert IsStep(states[i], steps[i], states[i + 1]);
    CloseKeeps(states[i]);
  }

  lemma {:induction false} LastCodeIsLast(log: seq<Reply>, since: nat, msgid: int)
    requires LastCode(log, since, msgid).Some?
    ensures exists j :: since <= j < |log| && log[j] == Reply(msgid, LastCode(log, since, msgid).value)
                        && forall k :: j < k < |log| ==> log[k].msgid != msgid
    decreases |log|
  {
    var last := |log| - 1;
    if log[last].msgid != msgid {
      LastCodeIsLast(log[..last], since, msgid);
      var j :| since <= j < last && log[..last][j] == Reply(msgid, LastCode(log, since, msgid).value)
               && forall k :: j < k < last ==> log[..last][k].msgid != msgid;
      assert log[j] == log[..last][j];
      assert forall k :: j < k < last ==> log[k] == log[..last][k];
    } else {
      assert log[last] == Reply(msgid, log[last].code);
    }
  }

  // The reply that decided an outcome: the last one with the call's own message id that was
  // dispatched between its insertion into the list and its reading of the code.
  predicate Decides(log: seq<Reply>, o: Outcome, j: int) {
    && o.since <= j < o.until <= |log| && log[j].msgid == o.msgid
    && forall k :: j < k < o.until ==> log[k].msgid != o.msgid
  }

  lemma OutcomeHasReply(log: seq<Reply>, o: Outcome)
    requires IsTrue(o, log) && o.result != Failed
    ensures exists j :: Decides(log, o, j) && (o.result == Success <==> log[j].code == CODE_SUCCESS)
  {
    var cut := log[..o.until];
    var last := LastCode(cut, o.since, o.msgid);
    LastCodeIsLast(cut, o.since, o.msgid);
    var j :| o.since <= j < |cut| && cut[j] == Reply(o.msgid, last.value) && forall k :: j < k < |cut| ==> cut[k].msgid != o.msgid;
    assert log[j] == cut[j];
    assert forall k :: j < k < o.until ==> log[k] == cut[k];
    assert Decides(log, o, j);
  }

  // A call returns success only if a reply with its own message id and code 200 was dispatched while
  // it waited, and says refused only if that reply had another code.
  lemma SuccessMeansReplied(states: seq<State>, steps: seq<Step>, i: nat, n: nat)
    requires IsRun(states, steps) && i < |states| && n < |states[i].outcomes|
    ensures var s := states[i]; var o := s.outcomes[n];
            o.result != Failed ==> exists j :: Decides(s.log, o, j) && (o.result == Success <==> s.log[j].code == CODE_SUCCESS)
  {
    hide Decides;
    RunInv(states, steps, i);
    if states[i].outcomes[n].result != Failed {
      OutcomeHasReply(states[i].log, states[i].outcomes[n]);
    }
  }

  // A reply that was dispatched before the waiter was inserted wakes nobody.
  lemma WakeNeedsLaterReply(states: seq<State>, steps: seq<Step>, i: nat)
    requires IsRun(states, steps) && i < |steps| && steps[i].Wake?
    ensures var s := states[i]; var c := Current(s);
            && c.Waiting? && c.node < |s.waiters| && steps[i].t in s.callers && c == s.callers[steps[i].t]
            && exists j :: s.waiters[c.node].since <= j < |s.log| && s.log[j].msgid == c.msgid
  {
    RunInv(states, steps, i);
    var s := states[i];
    assert IsStep(s, steps[i], states[i + 1]);
    LastCodeIsLast(s.log, s.waiters[Current(s).node].since, Current(s).msgid);
  }
}
