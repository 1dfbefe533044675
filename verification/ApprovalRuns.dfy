/**
 Runs of the approval protocol: what holds in every state that interleaved queries,
 approvals and rejections can reach.
 */
module ApprovalRuns {
  import opened Text
  import opened Fresh
  import opened Contracts
  import opened Operations
  import opened Executor
  import opened Approvals
  import opened ApprovalProtocol

  /** A run of the system: the states it passes through and the moves between them. */
  ghost predicate IsRun(registry: Registry, states: seq<System>, moves: seq<Move>) {
    && |states| == |moves| + 1 && states[0] == START
    && forall i :: 0 <= i < |moves| ==>
         Enabled(states[i], registry, moves[i]) && states[i + 1] == Apply(states[i], registry, moves[i])
  }

  lemma {:induction false} RunKeepsInv(registry: Registry, states: seq<System>, moves: seq<Move>, i: nat)
    requires IsRun(registry, states, moves) && i < |states|
    ensures Inv(states[i], registry)
  {
    if i > 0 {
      RunKeepsInv(registry, states, moves, i - 1);
      InvKept(states[i - 1], registry, moves[i - 1]);
    }
  }

  /** A move that concerns a row holds its lock, and a decided row is never locked. */
  lemma {:induction false} MovesConcernPending(s: System, registry: Registry, a: Move, id: ApprovalId, e: Event)
    requires LocksHeld(s) && Enabled(s, registry, a) && Decided(s, id)
    requires e in Appended(s, registry, a)
    ensures forall matter :: !Concerns(e, id, matter)
  {
    if Actor(a).Some? {
      assert TxnOk(s, Actor(a).value);
    }
  }

  lemma {:induction false} DecidedCountsStay(s: System, registry: Registry, a: Move, id: ApprovalId)
    requires LocksHeld(s) && Enabled(s, registry, a) && Decided(s, id)
    ensures SameCounts(Apply(s, registry, a).history, s.history, id)
  {
    HistoryAppends(s, registry, a);
    var more := Appended(s, registry, a);
    var after := s.history + more;
    forall i, matter | |s.history| <= i < |after| ensures !Concerns(after[i], id, matter) {
      assert after[i] == more[i - |s.history|] && after[i] in more;
      MovesConcernPending(s, registry, a, id, after[i]);
    }
    SameCountsAfterOthers(s.history, after, id);
  }

  /**
   Once an approval is decided it stays as it is: its status never changes again, and no
   later call, commit or rollback concerns it.
   */
  lemma {:induction false} DecisionIsFinal(registry: Registry, states: seq<System>, moves: seq<Move>, i: nat, j: nat,
                                           id: ApprovalId)
    requires IsRun(registry, states, moves) && i <= j < |states| && Decided(states[i], id)
    ensures id in states[j].approvals && states[j].approvals[id] == states[i].approvals[id]
    ensures SameCounts(states[j].history, states[i].history, id)
    decreases j
  {
    if i < j {
      DecisionIsFinal(registry, states, moves, i, j - 1, id);
      RunKeepsInv(registry, states, moves, j - 1);
      DecidedStays(states[j - 1], registry, moves[j - 1], id);
      DecidedCountsStay(states[j - 1], registry, moves[j - 1], id);
    }
  }

  /**
   The books of one approval: how often it was decided and executed, and what its agent calls
   are made up of. A decided approval has no call in flight.
   */
  ghost predicate Balanced(s: System, id: ApprovalId) {
    && Count(s.history, id, Decisions) == One(Decided(s, id))
    && Count(s.history, id, Executions) == One(Decided(s, id) && s.approvals[id].status != Rejected)
    && Count(s.history, id, AgentCalls) ==
         Count(s.history, id, Executions) + Count(s.history, id, LostCalls) + InFlight(s, id)
    && (Decided(s, id) ==> InFlight(s, id) == 0)
  }

  lemma {:induction false} InvBalances(s: System, registry: Registry, id: ApprovalId)
    requires Inv(s, registry)
    ensures Balanced(s, id)
  {
    assert Tally(s, id) && LockOk(s, id);
    if id in s.locks {
      assert TxnOk(s, s.locks[id]);
    }
  }

  /**
   In every state of every run an approval has been decided at most once, by an execution
   or by a rejection and never by both, and its agent calls are exactly the recorded
   executions, the calls lost to a rollback, and a call in flight, of which a decided
   approval has none.
   */
  lemma {:induction false} ApprovalsAreDecidedOnce(registry: Registry, states: seq<System>, moves: seq<Move>, i: nat,
                                                   id: ApprovalId)
    requires IsRun(registry, states, moves) && i < |states|
    ensures Balanced(states[i], id)
  {
    RunKeepsInv(registry, states, moves, i);
    InvBalances(states[i], registry, id);
  }

  lemma {:induction false} CountedEvent(history: seq<Event>, n: nat, id: ApprovalId, matter: Matter) returns (k: nat)
    requires n <= |history| && CountUpTo(history, n, id, matter) > 0
    ensures k < n && Concerns(history[k], id, matter)
  {
    if Concerns(history[n - 1], id, matter) {
      k := n - 1;
    } else {
      k := CountedEvent(history, n - 1, id, matter);
    }
  }

  /** The commit of an approve request whose call was answered like this. */
  predicate IsExecution(e: Event, id: ApprovalId, answer: Status) {
    e.Committed? && e.id == id && e.kind.Approve? && e.answer == Some(answer)
  }

  ghost predicate WasExecuted(s: System, id: ApprovalId, answer: Status) {
    exists k :: 0 <= k < |s.history| && IsExecution(s.history[k], id, answer)
              && WasAnswered(s.history, k, s.history[k].txn, id, answer)
  }

  ghost predicate WasRejected(s: System, id: ApprovalId) {
    exists k :: 0 <= k < |s.history| && s.history[k].Committed? && s.history[k].id == id && s.history[k].kind.Reject?
  }

  /**
   In every reachable state an approval is approved exactly if an approve request committed after
   its call was answered completed, failed exactly if after another answer, and rejected exactly
   if a reject request committed; else it still awaits.
   */
  lemma {:induction false} StatusTellsDecision(registry: Registry, states: seq<System>, moves: seq<Move>, i: nat,
                                               id: ApprovalId)
    requires IsRun(registry, states, moves) && i < |states| && id in states[i].approvals
    ensures var s := states[i];
            && (s.approvals[id].status == Approved <==> WasExecuted(s, id, Completed))
            && (s.approvals[id].status == ApprovalFailed <==>
                  exists answer :: answer != Completed && WasExecuted(s, id, answer))
            && (s.approvals[id].status == Rejected <==> WasRejected(s, id))
  {
    RunKeepsInv(registry, states, moves, i);
    var s := states[i];
    assert Tally(s, id);
    forall k | 0 <= k < |s.history| && s.history[k].Committed? && s.history[k].id == id
      ensures RightlyDecided(s, k) {}
    if Decided(s, id) {
      var k := CountedEvent(s.history, |s.history|, id, Decisions);
      var e := s.history[k];
      assert RightlyDecided(s, k);
      assert e.kind.Approve? ==> IsExecution(e, id, e.answer.value) && WasExecuted(s, id, e.answer.value);
    }
  }

  /**
   A decided approval was called at most once exactly when no call of an executed one, and at
   most one of a rejected one, was lost to a rollback. Without lost calls that holds of every
   approval, and a rejected one was never called.
   */
  lemma {:induction false} AtMostOneCall(registry: Registry, states: seq<System>, moves: seq<Move>, i: nat,
                                         id: ApprovalId)
    requires IsRun(registry, states, moves) && i < |states|
    ensures var s := states[i];
            var calls, lost := Count(s.history, id, AgentCalls), Count(s.history, id, LostCalls);
            && (Decided(s, id) ==> (calls <= 1 <==> lost <= One(s.approvals[id].status == Rejected)))
            && (!Decided(s, id) ==> (calls <= 1 <==> lost + InFlight(s, id) <= 1))
            && (lost == 0 ==> calls <= 1)
            && (lost == 0 && id in s.approvals && s.approvals[id].status == Rejected ==> calls == 0)
  {
    ApprovalsAreDecidedOnce(registry, states, moves, i, id);
  }

  /**
   Write safety of whole runs: a call of an operation that needs approval is only ever made
   by an approve request, for the owner of an approval not yet decided, with the service,
   operation and arguments stored when the executor created it.
   */
  lemma {:induction false} WritesAreApproved(registry: Registry, states: seq<System>, moves: seq<Move>, i: nat, k: nat)
    requires IsRun(registry, states, moves) && i < |states| && k < |states[i].history|
    ensures var s, e := states[i], states[i].history[k];
            && (e.ExecutorCalled? ==> !registry.requiresApproval(e.call.service, e.call.operation))
            && (e.ApprovalCalled? ==>
                  && e.id in s.origin && IdOf(s.origin[e.id]) == e.id
                  && s.origin[e.id].userId == e.userId
                  && e.action == Action(s.origin[e.id].service, s.origin[e.id].operation, s.origin[e.id].arguments)
                  && registry.requiresApproval(e.action.service, e.action.operation)
                  && Count(s.history[..k], e.id, Decisions) == 0)
  {
    RunKeepsInv(registry, states, moves, i);
    assert Legitimate(states[i], registry, k);
    if states[i].history[k].ApprovalCalled? {
      assert Traced(states[i], registry, states[i].history[k].id);
    }
  }

  // ---------- calls can be repeated as long as nothing is decided ----------

  /** These moves lead from one state to another. */
  ghost predicate Leads(registry: Registry, s: System, moves: seq<Move>, t: System)
    decreases |moves|
  {
    if moves == [] then t == s
    else Enabled(s, registry, moves[0]) && Leads(registry, Apply(s, registry, moves[0]), moves[1..], t)
  }

  lemma {:induction false} LeadsBy(registry: Registry, s: System, m: Move)
    requires Enabled(s, registry, m)
    ensures Leads(registry, s, [m], Apply(s, registry, m))
  {
    assert [m][1..] == [];
  }

  lemma {:induction false} LeadsOn(registry: Registry, s: System, moves: seq<Move>, t: System, more: seq<Move>,
                                   u: System)
    requires Leads(registry, s, moves, t) && Leads(registry, t, more, u)
    ensures Leads(registry, s, moves + more, u)
    decreases |moves|
  {
    if moves == [] {
      assert moves + more == more;
    } else {
      LeadsOn(registry, Apply(s, registry, moves[0]), moves[1..], t, more, u);
      assert (moves + more)[1..] == moves[1..] + more;
    }
  }

  /** The stored action reads back and names a supported operation. */
  predicate Callable(s: System, registry: Registry, id: ApprovalId) {
    && id in s.approvals && s.approvals[id].action.Some?
    && registry.supports(s.approvals[id].action.value.service, s.approvals[id].action.value.operation)
  }

  /** Pending, and locked by nobody. */
  predicate Free(s: System, id: ApprovalId) {
    id in s.approvals && s.approvals[id].status == Awaiting && id !in s.locks
  }

  /** An approve request begins and locks a free row. */
  lemma {:induction false} Enter(registry: Registry, s: System, id: ApprovalId)
    returns (txn: TxnId, moves: seq<Move>, t: System)
    requires Free(s, id)
    ensures Leads(registry, s, moves, t) && t.approvals == s.approvals && t.history == s.history
    ensures txn in t.txns && t.txns[txn] == Txn(Approve, s.approvals[id].userId, id, Checked)
  {
    txn := BeyondAll(s.txns.Keys);
    var begin := Begin(txn, Approve, s.approvals[id].userId, id);
    LeadsBy(registry, s, begin);
    t := Apply(s, registry, begin);
    LeadsBy(registry, t, Lock(txn));
    LeadsOn(registry, s, [begin], t, [Lock(txn)], Apply(t, registry, Lock(txn)));
    moves, t := [begin] + [Lock(txn)], Apply(t, registry, Lock(txn));
  }

  /** An approve request for a free row gets as far as its call, and the agent answers in any way. */
  lemma {:induction false} Attempt(registry: Registry, s: System, id: ApprovalId, reply: AgentReply)
    returns (txn: TxnId, moves: seq<Move>, t: System)
    requires Free(s, id) && Callable(s, registry, id)
    ensures Leads(registry, s, moves, t) && t.approvals == s.approvals
    ensures Count(t.history, id, AgentCalls) == Count(s.history, id, AgentCalls) + 1
    ensures txn in t.txns && t.txns[txn].kind.Approve? && t.txns[txn].target == id
    ensures t.txns[txn].phase == if reply.Replied? then Answered(reply.status) else Closed
  {
    txn, moves, t := Enter(registry, s, id);
    var action := s.approvals[id].action.value;
    var call := CallAgent(txn, reply);
    LeadsBy(registry, t, call);
    LeadsOn(registry, s, moves, t, [call], Apply(t, registry, call));
    var called := CallOf(t, txn, reply);
    CountsAfter(s.history, called, id);
    CountsAfter(s.history + [called], RolledBack(txn, id, true), id);
    moves, t := moves + [call], Apply(t, registry, call);
  }

  /** Whoever has locked a row may roll back. */
  lemma {:induction false} Freed(registry: Registry, s: System, id: ApprovalId) returns (moves: seq<Move>, t: System)
    requires LocksHeld(s) && id in s.approvals && s.approvals[id].status == Awaiting
    ensures Leads(registry, s, moves, t) && t.approvals == s.approvals && Free(t, id)
    ensures Count(t.history, id, AgentCalls) == Count(s.history, id, AgentCalls)
  {
    moves, t := [], s;
    if id in s.locks {
      var txn := s.locks[id];
      assert LockOk(s, id);
      LeadsBy(registry, s, Abort(txn));
      CountsAfter(s.history, RolledBack(txn, id, s.txns[txn].phase.Answered?), id);
      moves, t := [Abort(txn)], Apply(s, registry, Abort(txn));
    }
  }

  lemma {:induction false} InvAlong(registry: Registry, s: System, moves: seq<Move>, t: System)
    requires Inv(s, registry) && Leads(registry, s, moves, t)
    ensures Inv(t, registry)
    decreases |moves|
  {
    if moves != [] {
      InvKept(s, registry, moves[0]);
      InvAlong(registry, Apply(s, registry, moves[0]), moves[1..], t);
    }
  }

  /**
   From wherever an approval is undecided, its action can be called once more, with any answer,
   and nothing is decided by that.
   */
  lemma {:induction false} OneMoreCall(registry: Registry, s: System, id: ApprovalId, reply: AgentReply)
    returns (txn: TxnId, moves: seq<Move>, t: System)
    requires LocksHeld(s) && Callable(s, registry, id) && !Decided(s, id)
    ensures txn in t.txns && t.txns[txn].kind.Approve? && t.txns[txn].target == id
    ensures t.txns[txn].phase == if reply.Replied? then Answered(reply.status) else Closed
    ensures Leads(registry, s, moves, t) && t.approvals == s.approvals
    ensures Count(t.history, id, AgentCalls) == Count(s.history, id, AgentCalls) + 1
  {
    var freed;
    moves, freed := Freed(registry, s, id);
    var more;
    txn, more, t := Attempt(registry, freed, id, reply);
    LeadsOn(registry, s, moves, freed, more, t);
    moves := moves + more;
  }

  /** And so any number of times. */
  lemma {:induction false} AnyNumberOfCalls(registry: Registry, s: System, id: ApprovalId, n: nat)
    returns (moves: seq<Move>, t: System)
    requires Inv(s, registry) && Callable(s, registry, id) && !Decided(s, id)
    ensures Leads(registry, s, moves, t) && t.approvals == s.approvals && Inv(t, registry)
    ensures Count(t.history, id, AgentCalls) == Count(s.history, id, AgentCalls) + n
  {
    if n == 0 {
      moves, t := [], s;
    } else {
      var u, txn, last;
      moves, u := AnyNumberOfCalls(registry, s, id, n - 1);
      txn, last, t := OneMoreCall(registry, u, id, Raised);
      InvAlong(registry, u, last, t);
      LeadsOn(registry, s, moves, u, last, t);
      moves := moves + last;
    }
  }

  /** An undecided approval can be decided: its next call is answered and committed. */
  lemma {:induction false} OneMoreCallDecides(registry: Registry, s: System, id: ApprovalId, reply: AgentReply)
    returns (moves: seq<Move>, t: System)
    requires LocksHeld(s) && Callable(s, registry, id) && !Decided(s, id) && reply.Replied?
    ensures Leads(registry, s, moves, t)
    ensures id in t.approvals
              && t.approvals[id].status == if reply.status == Completed then Approved else ApprovalFailed
    ensures Count(t.history, id, AgentCalls) == Count(s.history, id, AgentCalls) + 1
  {
    var txn, called;
    txn, moves, called := OneMoreCall(registry, s, id, reply);
    LeadsBy(registry, called, Commit(txn));
    t := Apply(called, registry, Commit(txn));
    CountsAfter(called.history, CommitOf(called, txn), id);
    LeadsOn(registry, s, moves, called, [Commit(txn)], t);
    moves := moves + [Commit(txn)];
  }

  /**
   A call that raises is no obstacle: whatever state a run has come to, an undecided approval can
   be called in vain and then, on a retry with another answer, be executed, once.
   */
  lemma {:induction false} RetryCanSucceed(registry: Registry, states: seq<System>, moves: seq<Move>, i: nat,
                                           id: ApprovalId,
                                           reply: AgentReply) returns (more: seq<Move>, t: System)
    requires IsRun(registry, states, moves) && i < |states|
    requires Callable(states[i], registry, id) && !Decided(states[i], id) && reply.Replied?
    ensures Leads(registry, states[i], more, t)
    ensures id in t.approvals
              && t.approvals[id].status == if reply.status == Completed then Approved else ApprovalFailed
    ensures Count(t.history, id, AgentCalls) == Count(states[i].history, id, AgentCalls) + 2
    ensures Count(t.history, id, Executions) == 1
    ensures Count(t.history, id, LostCalls) == Count(t.history, id, AgentCalls) - 1
  {
    RunKeepsInv(registry, states, moves, i);
    var txn, first, raised := OneMoreCall(registry, states[i], id, Raised);
    InvAlong(registry, states[i], first, raised);
    var second;
    second, t := OneMoreCallDecides(registry, raised, id, reply);
    InvAlong(registry, raised, second, t);
    InvBalances(t, registry, id);
    LeadsOn(registry, states[i], first, raised, second, t);
    more := first + second;
  }

  ghost predicate NoCallAhead(s: System, registry: Registry, id: ApprovalId) {
    id in s.approvals && (Decided(s, id) || !Callable(s, registry, id))
  }

  lemma {:induction false} NoCallNext(s: System, registry: Registry, a: Move, id: ApprovalId)
    requires LocksHeld(s) && Enabled(s, registry, a) && NoCallAhead(s, registry, id)
    ensures NoCallAhead(Apply(s, registry, a), registry, id)
    ensures Count(Apply(s, registry, a).history, id, AgentCalls) == Count(s.history, id, AgentCalls)
  {
    if Decided(s, id) {
      DecidedStays(s, registry, a, id);
      DecidedCountsStay(s, registry, a, id);
    } else {
      HistoryAppends(s, registry, a);
      var after := Apply(s, registry, a).history;
      assert after[..|s.history|] == s.history;
      forall i | |s.history| <= i < |after| ensures !Concerns(after[i], id, AgentCalls) {
        assert after[i] == Appended(s, registry, a)[i - |s.history|];
      }
      CountOfOthers(s.history, after, |after|, id, AgentCalls);
      if a.Query? {
        QueryKeepsApprovals(s, registry, a.rows, a.calls, id);
      }
    }
  }

  lemma {:induction false} NoCallAlong(registry: Registry, s: System, moves: seq<Move>, t: System, id: ApprovalId)
    requires Inv(s, registry) && Leads(registry, s, moves, t) && NoCallAhead(s, registry, id)
    ensures Count(t.history, id, AgentCalls) == Count(s.history, id, AgentCalls)
    decreases |moves|
  {
    if moves != [] {
      var next := Apply(s, registry, moves[0]);
      InvKept(s, registry, moves[0]);
      NoCallNext(s, registry, moves[0], id);
      NoCallAlong(registry, next, moves[1..], t, id);
    }
  }

  /** Some continuation calls the approval's action again. */
  ghost predicate CanBeCalledAgain(registry: Registry, s: System, id: ApprovalId) {
    exists moves, t ::
      Leads(registry, s, moves, t) && Count(t.history, id, AgentCalls) > Count(s.history, id, AgentCalls)
  }

  /**
   In every state that a run reaches, whatever was called before, an approval's action can be
   called again exactly as long as the approval is undecided and its action can be called at all.
   */
  lemma {:induction false} CalledAgainIffUndecided(registry: Registry, states: seq<System>, moves: seq<Move>, i: nat,
                                                   id: ApprovalId)
    requires IsRun(registry, states, moves) && i < |states| && id in states[i].approvals
    ensures CanBeCalledAgain(registry, states[i], id) <==> !Decided(states[i], id) && Callable(states[i], registry, id)
  {
    RunKeepsInv(registry, states, moves, i);
    if !Decided(states[i], id) && Callable(states[i], registry, id) {
      var txn, more, t := OneMoreCall(registry, states[i], id, Raised);
    } else if CanBeCalledAgain(registry, states[i], id) {
      var more, t :| Leads(registry, states[i], more, t)
                     && Count(t.history, id, AgentCalls) > Count(states[i].history, id, AgentCalls);
      NoCallAlong(registry, states[i], more, t, id);
    }
  }

  /** One lost call, and two calls of one approval can be reached, from wherever a run has come. */
  lemma {:induction false} LostCallLeadsToSecond(registry: Registry, states: seq<System>, moves: seq<Move>, i: nat,
                                                 id: ApprovalId)
    returns (more: seq<Move>, t: System)
    requires IsRun(registry, states, moves) && i < |states|
    requires Count(states[i].history, id, LostCalls) >= 1
    requires Callable(states[i], registry, id) && !Decided(states[i], id)
    ensures Leads(registry, states[i], more, t) && Count(t.history, id, AgentCalls) >= 2
  {
    RunKeepsInv(registry, states, moves, i);
    ApprovalsAreDecidedOnce(registry, states, moves, i, id);
    var txn;
    txn, more, t := OneMoreCall(registry, states[i], id, Raised);
  }

  /** Every executor run that stores a callable action can be followed by two calls of it. */
  lemma {:induction false} RolledBackCallCounterexample(registry: Registry, row: ApprovalRow)
    returns (moves: seq<Move>, t: System)
    requires row.status == Awaiting && row.arguments.Obj?
    requires registry.requiresApproval(row.service, row.operation) && registry.supports(row.service, row.operation)
    ensures Leads(registry, START, moves, t) && Count(t.history, IdOf(row), AgentCalls) == 2
  {
    var query := Query([row], []);
    var s := Apply(START, registry, query);
    assert [row][..0] == [];
    NewRowsAppear(map[], map[], [row], IdOf(row));
    assert s.history == [];
    LeadsBy(registry, START, query);
    RunKeepsInv(registry, [START], [], 0);
    InvAlong(registry, START, [query], s);
    var more;
    more, t := AnyNumberOfCalls(registry, s, IdOf(row), 2);
    LeadsOn(registry, START, [query], s, more, t);
    moves := [query] + more;
  }
}
