// That the synchronous calls do get somewhere: a reply finds its waiter, a post wakes it, no
// state of a run is stuck, and both answers of the cloud reach the caller.
module SyncProgress {
  import opened Options
  import opened SyncCalls

  // A reply goes to the waiter exactly when it carries the waiter's message id.
  lemma SearchFindsWaiter(states: seq<State>, steps: seq<Step>, i: nat)
    requires IsRun(states, steps) && i < |steps| && steps[i] == Search
    ensures states[i].dispatch.Searching?
    ensures var s := states[i]; var c := Current(s); var reply := s.dispatch.reply;
            if OnList(c) && c.msgid == reply.msgid then states[i + 1].dispatch == Setting(reply, c.node)
            else states[i + 1].dispatch == Finished
  {
    RunInv(states, steps, i);
    assert IsStep(states[i], steps[i], states[i + 1]);
  }

  // After a post, the caller that waits can wake.
  lemma PostWakes(states: seq<State>, steps: seq<Step>, i: nat)
    requires IsRun(states, steps) && i < |steps| && steps[i] == Post && Current(states[i]).Waiting?
    ensures Enabled(states[i + 1], Wake(states[i].api.id))
  {
    RunInv(states, steps, i);
    assert IsStep(states[i], steps[i], states[i + 1]);
  }

  // The step of the dispatching thread while it holds the upstream mutex.
  function DispatchStep(d: Dispatch): Step {
    match d
    case Searching(_) => Search
    case Setting(_, _) => SetCode
    case Posting(_) => Post
    case _ => Finish
  }

  // A step of the thread whose call is in progress.
  function CallStep(t: nat, c: Caller): Step {
    match c
    case Idle => Enter(t)
    case Entered => Decline(t)
    case Sent(_) => Create(t, true)
    case Created(_, _) => LockToInsert(t)
    case Inserting(_, _) => Insert(t, true)
    case Listed(_, _) => UnlockAndWait(t)
    case Waiting(_, _) => TimeOut(t)
    case TimedOut(_, _) => LockToClean(t)
    case Cleaning(_, _) => Clean(t)
    case Woken(_, _) => LockToRead(t)
    case Reading(_, _) => ReadCode(t)
    case Removing(_, _, _, _) => Remove(t)
    case Leaving(_) => Unlock(t)
    case Returning(_) => Return(t)
  }

  // No state of a run is stuck: the dispatching thread goes on while it holds the upstream mutex, and
  // the thread with the call does when nobody else does; with neither, any thread can call.
  lemma NeverStuck(states: seq<State>, steps: seq<Step>, i: nat)
    requires IsRun(states, steps) && i < |states|
    ensures var s := states[i];
            if s.upstream == Dispatcher then Enabled(s, DispatchStep(s.dispatch))
            else if s.api.Thread? then Enabled(s, CallStep(s.api.id, Current(s)))
            else forall t :: t in s.callers ==> Enabled(s, Enter(t))
  {
    RunInv(states, steps, i);
  }

  // ---------- a run for every reply ----------

  // The states of one call with message id 7, in the order in which it goes through them.
  function Stage(k: nat, code: int): State
    requires k <= 17
  {
    var me := Thread(0);
    var read := if code == 200 then SUCCESS_RETURN else REFUSED_BY_CLOUD;
    var fresh0, posted, gone := [Semaphore(0, 0)], [Semaphore(1, 0)], [Semaphore(0, 1)];
    var node, marked, freed := [Waiter(7, 0, 0, false, 0)], [Waiter(7, 0, read, false, 0)], [Waiter(7, 0, read, true, 0)];
    var reply, answer := Reply(7, code), Outcome(7, if code == 200 then Success else Refused, 0, 1);
    if k == 0 then Alone(Nobody, Nobody, Idle, Ready, [], [], [], [], [])
    else if k == 1 then Alone(me, Nobody, Entered, Ready, [], [], [], [], [])
    else if k == 2 then Alone(me, Nobody, Sent(7), Ready, [], [], [], [], [])
    else if k == 3 then Alone(me, Nobody, Created(7, 0), Ready, fresh0, [], [], [], [])
    else if k == 4 then Alone(me, me, Inserting(7, 0), Ready, fresh0, [], [], [], [])
    else if k == 5 then Alone(me, me, Listed(7, 0), Ready, fresh0, node, [0], [], [])
    else if k == 6 then Alone(me, Nobody, Waiting(7, 0), Ready, fresh0, node, [0], [], [])
    else if k == 7 then Alone(me, Dispatcher, Waiting(7, 0), Searching(reply), fresh0, node, [0], [], [])
    else if k == 8 then Alone(me, Dispatcher, Waiting(7, 0), Setting(reply, 0), fresh0, node, [0], [], [])
    else if k == 9 then Alone(me, Dispatcher, Waiting(7, 0), Posting(0), fresh0, marked, [0], [reply], [])
    else if k == 10 then Alone(me, Dispatcher, Waiting(7, 0), Finished, posted, marked, [0], [reply], [])
    else if k == 11 then Alone(me, Nobody, Waiting(7, 0), Ready, posted, marked, [0], [reply], [])
    else if k == 12 then Alone(me, Nobody, Woken(7, 0), Ready, fresh0, marked, [0], [reply], [])
    else if k == 13 then Alone(me, me, Reading(7, 0), Ready, fresh0, marked, [0], [reply], [])
    else if k == 14 then Alone(me, me, Removing(7, 0, read, 1), Ready, fresh0, marked, [0], [reply], [])
    else if k == 15 then Alone(me, me, Leaving(answer), Ready, gone, freed, [], [reply], [])
    else if k == 16 then Alone(me, Nobody, Returning(answer), Ready, gone, freed, [], [reply], [])
    else Alone(Nobody, Nobody, Idle, Ready, gone, freed, [], [reply], [answer])
  }

  // One caller, and what it shares with the dispatching thread.
  function Alone(api: Owner, upstream: Owner, c: Caller, dispatch: Dispatch, sems: seq<Semaphore>, waiters: seq<Waiter>,
                 list: seq<nat>, log: seq<Reply>, outcomes: seq<Outcome>): State {
    State(api, upstream, map[0 := c], dispatch, sems, waiters, list, log, outcomes, false)
  }

  // The request, the reply, and the return.
  function Turn(k: nat, code: int): Step
    requires k < 17
  {
    if k == 0 then Enter(0) else if k == 1 then Send(0, 7) else if k == 2 then Create(0, true)
    else if k == 3 then LockToInsert(0) else if k == 4 then Insert(0, true) else if k == 5 then UnlockAndWait(0)
    else if k == 6 then Receive(Reply(7, code)) else if k == 7 then Search else if k == 8 then SetCode
    else if k == 9 then Post else if k == 10 then Finish
    else if k == 11 then Wake(0) else if k == 12 then LockToRead(0) else if k == 13 then ReadCode(0)
    else if k == 14 then Remove(0) else if k == 15 then Unlock(0) else Return(0)
  }

  lemma Moved(c: Caller, d: Caller)
    ensures map[0 := c][0 := d] == map[0 := d]
  {}

  lemma SetAlone<T>(x: T, y: T)
    ensures [x][0 := y] == [y]
  {}

  lemma Turn0(code: int)
    ensures IsStep(Stage(0, code), Turn(0, code), Stage(1, code))
  {
    var s, t := Stage(0, code), Stage(1, code);
    Moved(s.callers[0], t.callers[0]);
  }

  lemma Turn1(code: int)
    ensures IsStep(Stage(1, code), Turn(1, code), Stage(2, code))
  {
    var s, t := Stage(1, code), Stage(2, code);
    Moved(s.callers[0], t.callers[0]);
  }

  lemma Turn2(code: int)
    ensures IsStep(Stage(2, code), Turn(2, code), Stage(3, code))
  {
    var s, t := Stage(2, code), Stage(3, code);
    Moved(s.callers[0], t.callers[0]);
  }

  lemma Turn3(code: int)
    ensures IsStep(Stage(3, code), Turn(3, code), Stage(4, code))
  {
    var s, t := Stage(3, code), Stage(4, code);
    Moved(s.callers[0], t.callers[0]);
  }

  lemma Turn4(code: int)
    ensures IsStep(Stage(4, code), Turn(4, code), Stage(5, code))
  {
    var s, t := Stage(4, code), Stage(5, code);
    Moved(s.callers[0], t.callers[0]);
  }

  lemma Turn5(code: int)
    ensures IsStep(Stage(5, code), Turn(5, code), Stage(6, code))
  {
    var s, t := Stage(5, code), Stage(6, code);
    Moved(s.callers[0], t.callers[0]);
  }

  lemma Turn6(code: int)
    ensures IsStep(Stage(6, code), Turn(6, code), Stage(7, code))
  {
    var s, t := Stage(6, code), Stage(7, code);
  }

  lemma Turn7(code: int)
    ensures IsStep(Stage(7, code), Turn(7, code), Stage(8, code))
  {
    var s, t := Stage(7, code), Stage(8, code);
  }

  lemma Turn8(code: int)
    ensures IsStep(Stage(8, code), Turn(8, code), Stage(9, code))
  {
    var s, t := Stage(8, code), Stage(9, code);
    SetAlone(s.waiters[0], t.waiters[0]);
  }

  lemma Turn9(code: int)
    ensures IsStep(Stage(9, code), Turn(9, code), Stage(10, code))
  {
    var s, t := Stage(9, code), Stage(10, code);
    SetAlone(s.sems[0], t.sems[0]);
  }

  lemma Turn10(code: int)
    ensures IsStep(Stage(10, code), Turn(10, code), Stage(11, code))
  {
    var s, t := Stage(10, code), Stage(11, code);
  }

  lemma Turn11(code: int)
    ensures IsStep(Stage(11, code), Turn(11, code), Stage(12, code))
  {
    var s, t := Stage(11, code), Stage(12, code);
    Moved(s.callers[0], t.callers[0]);
    SetAlone(s.sems[0], t.sems[0]);
  }

  lemma Turn12(code: int)
    ensures IsStep(Stage(12, code), Turn(12, code), Stage(13, code))
  {
    var s, t := Stage(12, code), Stage(13, code);
    Moved(s.callers[0], t.callers[0]);
  }

  lemma Turn13(code: int)
    ensures IsStep(Stage(13, code), Turn(13, code), Stage(14, code))
  {
    var s, t := Stage(13, code), Stage(14, code);
    Moved(s.callers[0], t.callers[0]);
  }

  lemma Turn14(code: int)
    ensures IsStep(Stage(14, code), Turn(14, code), Stage(15, code))
  {
    var s, t := Stage(14, code), Stage(15, code);
    Moved(s.callers[0], t.callers[0]);
    SetAlone(s.sems[0], t.sems[0]);
    SetAlone(s.waiters[0], t.waiters[0]);
  }

  lemma Turn15(code: int)
    ensures IsStep(Stage(15, code), Turn(15, code), Stage(16, code))
  {
    var s, t := Stage(15, code), Stage(16, code);
    Moved(s.callers[0], t.callers[0]);
  }

  lemma Turn16(code: int)
    ensures IsStep(Stage(16, code), Turn(16, code), Stage(17, code))
  {
    var s, t := Stage(16, code), Stage(17, code);
    Moved(s.callers[0], t.callers[0]);
  }

  lemma EveryTurn(k: nat, code: int)
    requires k < 17
    ensures IsStep(Stage(k, code), Turn(k, code), Stage(k + 1, code))
  {
    hide *;
    match k {
      case 0 => Turn0(code);
      case 1 => Turn1(code);
      case 2 => Turn2(code);
      case 3 => Turn3(code);
      case 4 => Turn4(code);
      case 5 => Turn5(code);
      case 6 => Turn6(code);
      case 7 => Turn7(code);
      case 8 => Turn8(code);
      case 9 => Turn9(code);
      case 10 => Turn10(code);
      case 11 => Turn11(code);
      case 12 => Turn12(code);
      case 13 => Turn13(code);
      case 14 => Turn14(code);
      case 15 => Turn15(code);
      case _ => Turn16(code);
    }
  }

  // For every code there is a run in which the call returns: success for 200, refused for any other.
  lemma EveryReplyReturns(code: int) returns (states: seq<State>, steps: seq<Step>)
    ensures IsRun(states, steps)
    ensures states[|steps|].outcomes == [Outcome(7, if code == 200 then Success else Refused, 0, 1)]
  {
    states := seq(18, k requires 0 <= k < 18 => Stage(k, code));
    steps := seq(17, k requires 0 <= k < 17 => Turn(k, code));
    assert Start(Stage(0, code));
    hide IsStep, Stage, Turn;
    forall k: nat | k < 17 ensures IsStep(states[k], steps[k], states[k + 1]) {
      EveryTurn(k, code);
    }
    LastStage(code);
  }

  lemma LastStage(code: int)
    ensures Stage(17, code).outcomes == [Outcome(7, if code == 200 then Success else Refused, 0, 1)]
  {}
}
