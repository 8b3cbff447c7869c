/**
 What each step of a coroutine's body does, how a coroutine is left when it yields, and what that means for
 a run: who is played is called, in every run that finishes.
 */
module Turns {
  import opened Machine
  import opened Fifo
  import opened SList
  import opened Process
  import opened Scheduler
  import opened Effects

  // ---- the steps of a body ----

  /** Playing a coroutine that has not ended puts it on the run queue, ready; one that has stays off it. */
  lemma {:induction false} PlayAwakes(p: Local, that: nat, t: nat)
    requires p.Inv()
    ensures var q := Act(p, that, Play(t));
      && (p.Alive(t) ==> Awake(q, t)) && (!p.Alive(t) ==> t !in q.runQ)
      && q.sockets == p.sockets && (forall u :: u in p.runQ ==> u in q.runQ)
  {
    EnqueueRunKeeps(p, t);
    RunSockets(p, t);
    assert !p.Alive(t) ==> t !in p.runQ;
  }

  /** Raising an error in a coroutine does, too, and it is called to catch the error. */
  lemma {:induction false} RaiseAwakes(p: Local, that: nat, t: nat)
    requires p.Inv() && p.Alive(t)
    ensures var q := Act(p, that, RaiseAt(t)); Awake(q, t) && q.threads[t].status == Error
  {
    EnqueueRunKeeps(p, t);
  }

  /** `vk_again` on a socket of the coroutine registers it for the next poll. */
  lemma {:induction false} AgainBlocks(p: Local, that: nat, s: nat)
    requires p.Inv() && Owns(p, that, s) && p.Alive(that)
    ensures var q := Act(p, that, Again(s)); s in q.blockedQ && q.threads == p.threads && q.runQ == p.runQ
    ensures SameRings(p, Act(p, that, Again(s)))
  {
    EnqueueBlockedKeeps(p, s);
    BlockedSockets(p, s);
  }

  lemma {:induction false} BlockedSockets(p: Local, s: nat)
    requires s < |p.sockets|
    ensures SameRings(p, p.EnqueueBlocked(s))
  {
  }

  /** Sends and receives on a socket of the coroutine change nothing but its rings and its operation. */
  lemma {:induction false} UseSets(p: Local, that: nat, s: nat, rx: Fifo, tx: Fifo, op: Op)
    requires Owns(p, that, s) && rx.Valid() && tx.Valid()
    ensures Act(p, that, Use(s, rx, tx, op)) ==
            p.(sockets := p.sockets[s := p.sockets[s].(rx := rx, tx := tx, op := op)])
  {
  }

  /** The EOF is gone at both ends, and no byte has moved. */
  ghost predicate EofDrained(p: Local, q: Local, s: nat, peer: nat)
    requires s < |p.sockets| && peer < |p.sockets|
  {
    && p.SameShape(q)
    && !q.sockets[peer].tx.eof && !q.sockets[s].rx.eof
    && q.sockets[peer].tx.contents == p.sockets[peer].tx.contents
    && q.sockets[s].rx.contents == p.sockets[s].rx.contents
  }

  lemma {:induction false} HupDrained(p: Local, a: Local, s: nat, peer: nat)
    requires s < |p.sockets| && peer < |p.sockets| && EofTaken(p, a, s, peer)
    ensures EofDrained(p, a.SetRx(s, a.sockets[s].rx.ClearEof()), s, peer)
  {
  }

  lemma {:induction false} DrainWakes(p: Local, a: Local, s: nat, peer: nat)
    requires s < |p.sockets| && peer < |p.sockets| && p.SameShape(a) && Woken(p, a, s, peer)
    ensures Woken(p, a.SetRx(s, a.sockets[s].rx.ClearEof()), s, peer)
  {
  }

  lemma {:induction false} ReadHupIs(p: Local, that: nat, s: nat, a: Local)
    requires Owns(p, that, s) && p.Alive(that) && a == HandleReadHup(p, s).p
    ensures Act(p, that, ReadHupNow(s)) == a.SetRx(s, a.sockets[s].rx.ClearEof())
  {
  }

  /** An inline readhup takes the writer's EOF, drains it, and wakes the writer. */
  lemma {:induction false} ReadHupTakes(p: Local, that: nat, s: nat, peer: nat)
    requires p.Inv() && Owns(p, that, s) && p.Alive(that) && peer < |p.sockets|
    requires p.sockets[s].rxPipe == VkTx(peer) && p.sockets[peer].tx.eof
    ensures EofDrained(p, Act(p, that, ReadHupNow(s)), s, peer)
    ensures Woken(p, Act(p, that, ReadHupNow(s)), s, peer)
  {
    var a := HandleReadHup(p, s).p;
    ReadHupIs(p, that, s, a);
    EofIsTaken(p, s, peer);
    ReadHupWakesWriter(p, s, peer);
    HupDrained(p, a, s, peer);
    DrainWakes(p, a, s, peer);
  }

  /** A new coroutine is ready and on no queue, with a socket of its own and two empty rings. */
  lemma {:induction false} CreateAdds(p: Local, that: nat, rxPipe: Pipe, txPipe: Pipe)
    requires p.Inv() && p.PipeOk(rxPipe) && p.PipeOk(txPipe)
    ensures var q, t, s := Act(p, that, Create(rxPipe, txPipe)), |p.threads|, |p.sockets|;
      && |q.threads| == t + 1 && |q.sockets| == s + 1
      && q.threads[..t] == p.threads && q.sockets[..s] == p.sockets
      && IsReady(q, t) && t !in q.runQ && s !in q.blockedQ
      && q.sockets[s].owner == t && q.sockets[s].rxPipe == rxPipe && q.sockets[s].txPipe == txPipe
      && q.sockets[s].rx.contents == [] && q.sockets[s].tx.contents == [] && q.sockets[s].op == OpNone
  {
    assert |p.threads| !in p.runQ && |p.sockets| !in p.blockedQ;
  }

  /** Both ends of a pipeline are bound to each other, and no other pipe changes. */
  lemma {:induction false} PipelineBinds(p: Local, that: nat, parent: nat, child: nat)
    requires parent < |p.sockets| && child < |p.sockets|
    ensures var q := Act(p, that, Pipeline(parent, child));
      && q.sockets[parent].txPipe == VkRx(child) && q.sockets[child].rxPipe == VkTx(parent)
      && (forall u :: 0 <= u < |p.sockets| ==>
            && (u != parent ==> q.sockets[u].txPipe == p.sockets[u].txPipe)
            && (u != child ==> q.sockets[u].rxPipe == p.sockets[u].rxPipe))
      && SameRings(p, q) && q.threads == p.threads && q.runQ == p.runQ
  {
  }

  lemma {:induction false} RebindBinds(p: Local, that: nat, s: nat, rxPipe: Pipe, txPipe: Pipe)
    requires s < |p.sockets| && p.PipeOk(rxPipe) && p.PipeOk(txPipe)
    ensures var q := Act(p, that, Rebind(s, rxPipe, txPipe));
      && q.sockets[s].rxPipe == rxPipe && q.sockets[s].txPipe == txPipe
      && SameRings(p, q) && q.threads == p.threads && q.runQ == p.runQ
      && forall u :: 0 <= u < |p.sockets| && u != s ==> q.sockets[u] == p.sockets[u]
  {
  }

  // ---- how a coroutine is left ----

  /** The status after each way of yielding; no other coroutine's changes. */
  lemma {:induction false} LeavesAs(p: Local, that: nat, exit: Exit)
    requires p.Inv() && p.Alive(that)
    ensures var q := Leave(p, that, exit);
      && (match exit
          case Pause => q.threads[that].status == Yield
          case Listening => q.threads[that].status == Listen
          case WaitOn(s) =>
            && q.threads[that].status == Wait
            && (s < |p.sockets| ==> q.threads[that].waiting == Some(s) && q.sockets[s].owner == that)
          case Raise => q.threads[that].status == Error && that in q.runQ
          case Lower => q.threads[that].status == Run
          case Finish => q.threads[that].status == End)
      && forall t :: 0 <= t < |p.threads| && t != that ==> q.threads[t] == p.threads[t]
  {
    if exit == Raise {
      EnqueueRunKeeps(p, that);
    }
  }

  /** A coroutine that catches an error runs again, and one that is called no longer waits. */
  lemma {:induction false} EntersAs(p: Local, that: nat)
    requires that < |p.threads|
    ensures var q := Enter(p, that);
      && q.threads[that].status == (if p.threads[that].status == Error then Run else p.threads[that].status)
      && q.threads[that].waiting == None && q.sockets == p.sockets && q.runQ == p.runQ
  {
  }

  /** After its turns one that has yielded is ready again; any other is left as it is. */
  lemma {:induction false} SettlesAs(p: Local, that: nat)
    requires that < |p.threads|
    ensures Settle(p, that) == p.SetThread(that, p.threads[that].(
              status := if p.threads[that].status == Yield then Run else p.threads[that].status))
  {
    assert p.threads == p.threads[that := p.threads[that]];
  }

  /** A coroutine that waits has its operation tried at once. */
  lemma {:induction false} WaitTries(p: Local, that: nat, turn: Turn)
    requires p.Inv() && that < |p.threads| && turn.exit.WaitOn?
    requires turn.exit.s < |Call(p, that, turn).sockets|
    ensures TurnOf(p, that, turn) == Handler(Call(p, that, turn), turn.exit.s, turn.io)
    ensures Call(p, that, turn).sockets[turn.exit.s].owner == that
  {
  }

  /** So a wait in the middle of a write gives out what the system takes. */
  lemma {:induction false} WaitWrites(p: Local, that: nat, turn: Turn)
    requires p.Inv() && that < |p.threads| && turn.exit.WaitOn? && turn.exit.s < |Call(p, that, turn).sockets|
    requires Call(p, that, turn).sockets[turn.exit.s].op in {OpWrite, OpFlush}
    ensures GivesOut(Call(p, that, turn), TurnOf(p, that, turn).p, turn.exit.s, turn.io)
  {
    WaitTries(p, that, turn);
    CallKeeps(p, that, turn);
    OpWriteGives(Call(p, that, turn), turn.exit.s, turn.io);
  }

  lemma {:induction false} WaitReads(p: Local, that: nat, turn: Turn)
    requires p.Inv() && that < |p.threads| && turn.exit.WaitOn? && turn.exit.s < |Call(p, that, turn).sockets|
    requires var x := Call(p, that, turn).sockets[turn.exit.s];
      x.op == OpRead && x.rxPipe.OsFd? && !x.rxPipe.listens && x.txPipe != VkRx(turn.exit.s)
    ensures var f, g := Call(p, that, turn).sockets[turn.exit.s].rx, TurnOf(p, that, turn).p.sockets[turn.exit.s].rx;
      ReadsInto(f, g, turn.io.read)
  {
    var q := Call(p, that, turn);
    WaitTries(p, that, turn);
    CallKeeps(p, that, turn);
    EnterKeeps(p, that);
    ActsKeep(Enter(p, that), that, turn.actions);
    WaitKeeps(Acts(Enter(p, that), that, turn.actions), that, turn.exit.s);
    OpReadReads(q, turn.exit.s, turn.io);
  }

  /** A coroutine that ends is on no queue any more, with none of its sockets. */
  lemma {:induction false} FinishReaps(p: Local, that: nat, turn: Turn)
    requires p.Inv() && that < |p.threads| && turn.exit == Finish
    ensures var q := TurnOf(p, that, turn).p;
      && that < |q.threads| && q.threads[that].status == End && that !in q.runQ
      && forall s :: s in q.blockedQ ==> !Owns(q, that, s)
  {
    var q := Call(p, that, turn);
    EndsOnlyItself(p, that, turn);
    ReapKeeps(q, that);
    DropOwnedKeeps(q, q.blockedQ, that);
  }

  // ---- runs ----

  /** The moment before a turn: the state, and the coroutine whose turn it is. */
  datatype Moment = Moment(p: Local, that: nat)

  /** The moment before turn `n` of a run: where the turns before it leave the run suspended. */
  function MomentAt(p: Local, that: Option<nat>, script: seq<Turn>, n: nat): Option<Moment> {
    if n >= |script| then Option.None
    else
      var r := Execute(p, that, script[..n]);
      if r.verdict == Suspended && r.that.Some? then Some(Moment(r.p, r.that.value)) else Option.None
  }

  /** A run is suspended before the turn of a coroutine that is ready. */
  lemma {:induction false} SuspendedReady(p: Local, that: Option<nat>, script: seq<Turn>)
    requires Execute(p, that, script).verdict == Suspended
    ensures var r := Execute(p, that, script); r.that.Some? && IsReady(r.p, r.that.value)
    decreases |script|, |p.runQ|, that.Some?
  {
    match that
    case None => SuspendedReady(Dequeue(p), Some(p.runQ[0]), script);
    case Some(t) =>
      if !IsReady(p, t) {
        SuspendedReady(Settle(p, t), None, script);
      } else if script != [] {
        SuspendedReady(TurnOf(p, t, script[0]).p, that, script[1..]);
      }
  }

  /** It calls one coroutine a turn. */
  lemma {:induction false} CallsATurn(p: Local, that: Option<nat>, script: seq<Turn>)
    ensures |Called(p, that, script)| <= |script|
    ensures Execute(p, that, script).verdict == Suspended ==> |Called(p, that, script)| == |script|
    decreases |script|, |p.runQ|, that.Some?
  {
    match that
    case None =>
      if p.runQ != [] {
        CallsATurn(Dequeue(p), Some(p.runQ[0]), script);
      }
    case Some(t) =>
      if !IsReady(p, t) {
        CallsATurn(Settle(p, t), None, script);
      } else if script != [] && TurnOf(p, t, script[0]).ok {
        CallsATurn(TurnOf(p, t, script[0]).p, that, script[1..]);
      }
  }

  /** A run that is suspended goes on from there, and any other has come to its end. */
  lemma {:induction false} RunsOn(p: Local, that: Option<nat>, first: seq<Turn>, second: seq<Turn>)
    ensures var r := Execute(p, that, first);
      Execute(p, that, first + second) == if r.verdict == Suspended then Execute(r.p, r.that, second) else r
    decreases |first|, |p.runQ|, that.Some?
  {
    match that
    case None =>
      if p.runQ != [] {
        RunsOn(Dequeue(p), Some(p.runQ[0]), first, second);
      }
    case Some(t) =>
      if !IsReady(p, t) {
        RunsOn(Settle(p, t), None, first, second);
      } else if first == [] {
        assert first + second == second;
      } else {
        assert (first + second)[1..] == first[1..] + second && (first + second)[0] == first[0];
        RunsOn(TurnOf(p, t, first[0]).p, that, first[1..], second);
      }
  }

  /** And so do its calls. */
  lemma {:induction false} CallsOn(p: Local, that: Option<nat>, first: seq<Turn>, second: seq<Turn>)
    ensures var r := Execute(p, that, first);
      Called(p, that, first + second) ==
      Called(p, that, first) + if r.verdict == Suspended then Called(r.p, r.that, second) else []
    decreases |first|, |p.runQ|, that.Some?
  {
    match that
    case None =>
      if p.runQ != [] {
        CallsOn(Dequeue(p), Some(p.runQ[0]), first, second);
      }
    case Some(t) =>
      if !IsReady(p, t) {
        CallsOn(Settle(p, t), None, first, second);
      } else if first == [] {
        assert first + second == second;
      } else {
        assert (first + second)[1..] == first[1..] + second && (first + second)[0] == first[0];
        CallsOn(TurnOf(p, t, first[0]).p, that, first[1..], second);
      }
  }

  /** From the moment before a turn on, a run is the rest of the run. */
  lemma {:induction false} FromMoment(p: Local, that: Option<nat>, script: seq<Turn>, n: nat)
    requires p.Inv() && (that.Some? ==> that.value < |p.threads|)
    requires MomentAt(p, that, script, n).Some?
    ensures n < |script| && n < |Called(p, that, script)|
    ensures var m := MomentAt(p, that, script, n).value;
      && m.p.Inv() && m.that < |m.p.threads| && IsReady(m.p, m.that)
      && Called(p, that, script)[n..] == Called(m.p, Some(m.that), script[n..])
      && Execute(p, that, script) == Execute(m.p, Some(m.that), script[n..])
  {
    var first, second := script[..n], script[n..];
    assert first + second == script;
    ExecuteKeeps(p, that, first);
    SuspendedReady(p, that, first);
    CallsATurn(p, that, first);
    RunsOn(p, that, first, second);
    CallsOn(p, that, first, second);
    RestOfCalls(Called(p, that, first), Called(p, that, script), MomentAt(p, that, script, n).value, second);
  }

  lemma {:induction false} RestOfCalls(done: seq<nat>, all: seq<nat>, m: Moment, rest: seq<Turn>)
    requires all == done + Called(m.p, Some(m.that), rest) && IsReady(m.p, m.that) && rest != []
    ensures |done| < |all| && all[|done|..] == Called(m.p, Some(m.that), rest) && all[|done|] == m.that
  {
  }

  /** Every call is the turn of the coroutine that is called. */
  lemma {:induction false} CalledAt(p: Local, that: Option<nat>, script: seq<Turn>, n: nat)
    requires n < |Called(p, that, script)|
    ensures MomentAt(p, that, script, n).Some?
    ensures MomentAt(p, that, script, n).value.that == Called(p, that, script)[n]
  {
    CallsATurn(p, that, script);
    var first, second := script[..n], script[n..];
    assert first + second == script;
    CallsOn(p, that, first, second);
    CallsATurn(p, that, first);
    var r := Execute(p, that, first);
    if r.verdict == Suspended {
      SuspendedReady(p, that, first);
      RestOfCalls(Called(p, that, first), Called(p, that, script), Moment(r.p, r.that.value), second);
    }
  }

  /** Steps that wake a coroutine leave it awake, whatever steps follow. */
  lemma {:induction false} AwakeAfterActs(a: Local, that: nat, first: seq<Action>, second: seq<Action>, t: nat)
    requires a.Inv() && Awake(Acts(a, that, first), t)
    ensures Acts(a, that, first + second).Inv() && Awake(Acts(a, that, first + second), t)
  {
    ActsKeep(a, that, first);
    MoreActs(Acts(a, that, first), that, second, t);
    ActsThen(a, that, first, second);
  }

  lemma {:induction false} MoreActs(b: Local, that: nat, actions: seq<Action>, t: nat)
    requires b.Inv() && Awake(b, t)
    ensures Acts(b, that, actions).Inv() && Awake(Acts(b, that, actions), t)
  {
    ActsKeep(b, that, actions);
    ActsStayAwake(b, that, actions, t);
  }

  lemma {:induction false} AwakeAfterTurn(
      p: Local, that: nat, turn: Turn, first: seq<Action>, second: seq<Action>, t: nat)
    requires p.Inv() && that < |p.threads| && t != that && turn.actions == first + second
    requires Awake(Acts(Enter(p, that), that, first), t)
    ensures Awake(TurnOf(p, that, turn).p, t)
  {
    EnterKeeps(p, that);
    AwakeAfterActs(Enter(p, that), that, first, second, t);
    LeaveStaysAwake(Acts(Enter(p, that), that, turn.actions), that, turn.exit, t);
    EndOfTurn(p, that, turn, t);
  }

  lemma {:induction false} ActsThen(p: Local, that: nat, first: seq<Action>, second: seq<Action>)
    ensures Acts(p, that, first + second) == Acts(Acts(p, that, first), that, second)
    decreases |first|
  {
    if first == [] {
      assert first + second == second;
    } else {
      ActsThen(Act(p, that, first[0]), that, first[1..], second);
      assert (first + second)[1..] == first[1..] + second;
    }
  }

  lemma {:induction false} EndOfTurn(p: Local, that: nat, turn: Turn, t: nat)
    requires p.Inv() && that < |p.threads| && t != that && Awake(Call(p, that, turn), t)
    ensures Awake(TurnOf(p, that, turn).p, t)
  {
    var q := Call(p, that, turn);
    EndsOnlyItself(p, that, turn);
    if q.threads[that].status == End {
      ReapStaysAwake(q, that, t);
    } else {
      UnblockStaysAwake(p, that, turn, t);
    }
  }

  /** Turn `n` of a run plays `t`, which is alive and not the coroutine that plays. */
  ghost predicate Plays(m: Moment, turn: Turn, k: nat, t: nat) {
    && k < |turn.actions| && m.that != t
    && (turn.actions[k] == Play(t) || turn.actions[k] == RaiseAt(t))
    && Acts(Enter(m.p, m.that), m.that, turn.actions[..k]).Alive(t)
  }

  lemma {:induction false} PlayedIsAwake(m: Moment, turn: Turn, k: nat, t: nat)
    requires m.p.Inv() && m.that < |m.p.threads| && Plays(m, turn, k, t)
    ensures TurnOf(m.p, m.that, turn).p.Inv() && Awake(TurnOf(m.p, m.that, turn).p, t)
  {
    var a := Enter(m.p, m.that);
    EnterKeeps(m.p, m.that);
    ActsKeep(a, m.that, turn.actions[..k]);
    var b := Acts(a, m.that, turn.actions[..k]);
    if turn.actions[k] == Play(t) {
      PlayAwakes(b, m.that, t);
    } else {
      RaiseAwakes(b, m.that, t);
    }
    OneMoreAct(a, m.that, turn.actions, k);
    assert turn.actions == turn.actions[..k + 1] + turn.actions[k + 1..];
    AwakeAfterTurn(m.p, m.that, turn, turn.actions[..k + 1], turn.actions[k + 1..], t);
    TurnKeeps(m.p, m.that, turn);
  }

  lemma {:induction false} AwakeIsCalledNext(m: Moment, script: seq<Turn>, t: nat)
    requires script != [] && m.that < |m.p.threads| && IsReady(m.p, m.that)
    requires var r := TurnOf(m.p, m.that, script[0]); r.p.Inv() && Awake(r.p, t)
    requires Execute(m.p, Some(m.that), script).verdict == Finished
    ensures t in Called(m.p, Some(m.that), script)[1..]
  {
    AwakeIsCalled(TurnOf(m.p, m.that, script[0]).p, Some(m.that), script[1..], t);
  }

  /**
   Over every run that finishes: whoever a turn plays while alive, other than the one playing, is called
   after that turn.
   */
  lemma {:induction false} PlayedIsCalled(p: Local, that: Option<nat>, script: seq<Turn>, n: nat, k: nat, t: nat)
    requires p.Inv() && (that.Some? ==> that.value < |p.threads|)
    requires Execute(p, that, script).verdict == Finished
    requires MomentAt(p, that, script, n).Some? && n < |script|
    requires Plays(MomentAt(p, that, script, n).value, script[n], k, t)
    ensures n < |Called(p, that, script)| && t in Called(p, that, script)[n + 1..]
  {
    var m := MomentAt(p, that, script, n).value;
    FromMoment(p, that, script, n);
    PlayedIsAwake(m, script[n], k, t);
    AwakeIsCalledNext(m, script[n..], t);
    assert Called(p, that, script)[n..][1..] == Called(p, that, script)[n + 1..];
  }

  lemma {:induction false} OneMoreAct(p: Local, that: nat, actions: seq<Action>, k: nat)
    requires k < |actions|
    ensures Acts(p, that, actions[..k + 1]) == Act(Acts(p, that, actions[..k]), that, actions[k])
  {
    ActsThen(p, that, actions[..k], [actions[k]]);
    assert actions[..k] + [actions[k]] == actions[..k + 1];
    assert Acts(Act(Acts(p, that, actions[..k]), that, actions[k]), that, []) ==
           Act(Acts(p, that, actions[..k]), that, actions[k]);
  }

  /** The head of the run queue is called first, if it is ready. */
  lemma {:induction false} HeadIsCalledFirst(p: Local, script: seq<Turn>)
    requires p.Inv() && p.runQ != [] && IsReady(p, p.runQ[0]) && script != []
    ensures Called(p, None, script) != [] && Called(p, None, script)[0] == p.runQ[0]
  {
    DequeueStaysAwake(p, p.runQ[0]);
  }
}
