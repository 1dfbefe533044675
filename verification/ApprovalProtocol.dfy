/**
 Approve and reject requests as interleaved transactions. A transaction locks the approval
 row, checks it, may call an agent, and then commits or rolls back; executor runs commit in
 between. What holds of every run of this system is proved by induction over its actions.
 */
module ApprovalProtocol {
  import opened Text
  import opened Contracts
  import opened Operations
  import opened Evaluation
  import opened Executor
  import opened Approvals

  type TxnId = nat

  datatype ApprovalId = ApprovalId(uuid: string)

  function IdOf(row: ApprovalRow): ApprovalId {
    ApprovalId(row.id)
  }

  datatype Kind = Approve | Reject

  /** A transaction waits for the row, holds it checked, or holds it with an agent's reply. */
  datatype Phase = Waiting | Checked | Answered(status: Status) | Closed

  datatype Txn = Txn(kind: Kind, userId: string, target: ApprovalId, phase: Phase)

  datatype Event =
    | ApprovalCalled(txn: TxnId, userId: string, id: ApprovalId, action: Action, reply: AgentReply)
    | ExecutorCalled(call: Call)
    | Committed(txn: TxnId, kind: Kind, userId: string, id: ApprovalId, answer: Option<Status>, status: ApprovalStatus)
    | RolledBack(txn: TxnId, id: ApprovalId, afterCall: bool)

  /** The columns of an approval that its requests read: the stored action as it reads back. */
  datatype Row = Row(userId: string, status: ApprovalStatus, action: Option<Action>)

  function RowOf(row: ApprovalRow): Row {
    Row(row.userId, row.status,
        if row.arguments.Obj? then Some(Action(row.service, row.operation, row.arguments)) else None)
  }

  /** That is what a request reads from the stored columns. */
  lemma {:induction false} RowIsReadBack(row: ApprovalRow)
    ensures RowOf(row) == Row(Stored(row).userId, Stored(row).status, ReadAction(Stored(row).proposal))
  {
    StoredActionRoundTrip(Action(row.service, row.operation, row.arguments));
  }

  /**
   The committed approvals, the row locks, the transactions, and what has happened so far.
   `origin` remembers the row the executor created for each approval.
   */
  datatype System = System(
    approvals: map<ApprovalId, Row>,
    locks: map<ApprovalId, TxnId>,
    txns: map<TxnId, Txn>,
    history: seq<Event>,
    origin: map<ApprovalId, ApprovalRow>)

  const START := System(map[], map[], map[], [], map[])

  datatype Move =
    | Query(rows: seq<ApprovalRow>, calls: seq<Call>)
    | Begin(txn: TxnId, kind: Kind, userId: string, id: ApprovalId)
    | Lock(txn: TxnId)
    | CallAgent(txn: TxnId, reply: AgentReply)
    | Commit(txn: TxnId)
    | Abort(txn: TxnId)

  predicate Busy(t: Txn) {
    t.phase.Checked? || t.phase.Answered?
  }

  /**
   What an executor run may commit: fresh pending approvals for operations that need one,
   after calls to operations that need none.
   */
  predicate Admissible(s: System, registry: Registry, rows: seq<ApprovalRow>, calls: seq<Call>) {
    && (forall i :: 0 <= i < |rows| ==>
          IdOf(rows[i]) !in s.approvals && rows[i].status == Awaiting
            && registry.requiresApproval(rows[i].service, rows[i].operation))
    && forall i :: 0 <= i < |calls| ==> !registry.requiresApproval(calls[i].service, calls[i].operation)
  }

  /** Every executor run is admissible as long as its approval ids are new. */
  lemma {:induction false} ExecutorRunsAreAdmissible(s: System, executionId: nat, userId: string, env: Environment,
                                                     results: Results, order: seq<Step>)
    requires forall step :: step in order ==> ApprovalId(env.approvalId(step.id)) !in s.approvals
    ensures var run := RunOf(executionId, userId, env, results);
            Admissible(s, env.registry, Executor.Approvals(run, order), Calls(run, order))
  {
    CallsNeedNoApproval(executionId, userId, env, results, order);
    ApprovalsNeedApproval(executionId, userId, env, results, order);
    ApprovalIdsAreNew(s, executionId, userId, env, results, order);
  }

  lemma {:induction false} ApprovalIdsAreNew(s: System, executionId: nat, userId: string, env: Environment,
                                             results: Results, order: seq<Step>)
    requires forall step :: step in order ==> ApprovalId(env.approvalId(step.id)) !in s.approvals
    ensures forall row :: row in Executor.Approvals(RunOf(executionId, userId, env, results), order) ==>
              IdOf(row) !in s.approvals
  {
    if order != [] {
      assert order[|order| - 1] in order;
      ApprovalIdsAreNew(s, executionId, userId, env, results, order[..|order| - 1]);
    }
  }

  predicate Enabled(s: System, registry: Registry, a: Move) {
    match a
    case Query(rows, calls) => Admissible(s, registry, rows, calls)
    case Begin(txn, kind, userId, id) => txn !in s.txns
    case Lock(txn) =>
      // a row the caller does not own is never selected, and so never waited for
      txn in s.txns && s.txns[txn].phase.Waiting? && (s.txns[txn].target !in s.locks || !Owned(s, s.txns[txn]))
    case CallAgent(txn, _) =>
      // any reply at all: an agent may answer one attempt differently from the last
      && txn in s.txns && s.txns[txn].kind.Approve? && s.txns[txn].phase.Checked? && s.txns[txn].target in s.approvals
      && var action := s.approvals[s.txns[txn].target].action;
      && action.Some? && registry.supports(action.value.service, action.value.operation)
    case Commit(txn) =>
      && txn in s.txns && Busy(s.txns[txn]) && s.txns[txn].target in s.approvals
      && (s.txns[txn].kind.Approve? ==> s.txns[txn].phase.Answered?)
      && (s.txns[txn].kind.Reject? ==> s.txns[txn].phase.Checked?)
    case Abort(txn) => txn in s.txns && Busy(s.txns[txn])
  }

  function AddRows(approvals: map<ApprovalId, Row>, rows: seq<ApprovalRow>): map<ApprovalId, Row> {
    if rows == [] then approvals
    else AddRows(approvals, rows[..|rows| - 1])[IdOf(rows[|rows| - 1]) := RowOf(rows[|rows| - 1])]
  }

  function AddOrigins(origin: map<ApprovalId, ApprovalRow>, rows: seq<ApprovalRow>): map<ApprovalId, ApprovalRow> {
    if rows == [] then origin
    else AddOrigins(origin, rows[..|rows| - 1])[IdOf(rows[|rows| - 1]) := rows[|rows| - 1]]
  }

  function ExecutorEvents(calls: seq<Call>): seq<Event> {
    seq(|calls|, i requires 0 <= i < |calls| => ExecutorCalled(calls[i]))
  }

  predicate Owned(s: System, t: Txn) {
    t.target in s.approvals && s.approvals[t.target].userId == t.userId
  }

  /** What the row check decides when the lock is granted: it sees the committed row. */
  predicate Passes(s: System, t: Txn) {
    Owned(s, t) && s.approvals[t.target].status == Awaiting
  }

  function Unlocked(s: System, txn: TxnId): System
    requires txn in s.txns
  {
    s.(locks := s.locks - {s.txns[txn].target}, txns := s.txns[txn := s.txns[txn].(phase := Closed)])
  }

  function CommitStatus(t: Txn): ApprovalStatus {
    if t.kind.Approve? && t.phase.Answered? then ReplyStatus(t.phase.status) else Rejected
  }

  function Granted(s: System, txn: TxnId): System
    requires txn in s.txns
  {
    var t := s.txns[txn];
    if Passes(s, t)
    then s.(locks := s.locks[t.target := txn], txns := s.txns[txn := t.(phase := Checked)])
    else s.(txns := s.txns[txn := t.(phase := Closed)])
  }

  function CallOf(s: System, txn: TxnId, reply: AgentReply): Event
    requires txn in s.txns && s.txns[txn].target in s.approvals && s.approvals[s.txns[txn].target].action.Some?
  {
    var t := s.txns[txn];
    ApprovalCalled(txn, t.userId, t.target, s.approvals[t.target].action.value, reply)
  }

  function CommitOf(s: System, txn: TxnId): Event
    requires txn in s.txns
  {
    var t := s.txns[txn];
    Committed(txn, t.kind, t.userId, t.target, if t.phase.Answered? then Some(t.phase.status) else None,
      CommitStatus(t))
  }

  function Called(s: System, registry: Registry, txn: TxnId, reply: AgentReply): System
    requires Enabled(s, registry, CallAgent(txn, reply))
  {
    var t := s.txns[txn];
    var called := CallOf(s, txn, reply);
    if reply.Replied?
    then s.(txns := s.txns[txn := t.(phase := Answered(reply.status))], history := s.history + [called])
    else Unlocked(s, txn).(history := s.history + [called] + [RolledBack(txn, t.target, true)])
  }

  function Decide(s: System, txn: TxnId): System
    requires txn in s.txns && s.txns[txn].target in s.approvals
  {
    var t := s.txns[txn];
    var status := CommitStatus(t);
    Unlocked(s, txn).(approvals := s.approvals[t.target := s.approvals[t.target].(status := status)],
                      history := s.history + [CommitOf(s, txn)])
  }

  function Undone(s: System, txn: TxnId): System
    requires txn in s.txns
  {
    Unlocked(s, txn).(history := s.history + [RolledBack(txn, s.txns[txn].target, s.txns[txn].phase.Answered?)])
  }

  function Apply(s: System, registry: Registry, a: Move): System
    requires Enabled(s, registry, a)
  {
    match a
    case Query(rows, calls) =>
      s.(approvals := AddRows(s.approvals, rows), origin := AddOrigins(s.origin, rows),
         history := s.history + ExecutorEvents(calls))
    case Begin(txn, kind, userId, id) => s.(txns := s.txns[txn := Txn(kind, userId, id, Waiting)])
    case Lock(txn) => Granted(s, txn)
    case CallAgent(txn, reply) => Called(s, registry, txn, reply)
    case Commit(txn) => Decide(s, txn)
    case Abort(txn) => Undone(s, txn)
  }

  // ---------- counting events ----------

  /**
   What is counted of an approval: commits that decided it, commits that recorded an
   executed action, agent calls, and rollbacks that forgot a call already made.
   */
  datatype Matter = Decisions | Executions | AgentCalls | LostCalls

  predicate Concerns(e: Event, id: ApprovalId, matter: Matter) {
    match matter
    case Decisions => e.Committed? && e.id == id
    case Executions => e.Committed? && e.id == id && e.status != Rejected
    case AgentCalls => e.ApprovalCalled? && e.id == id
    case LostCalls => e.RolledBack? && e.id == id && e.afterCall
  }

  function One(b: bool): nat {
    if b then 1 else 0
  }

  function CountUpTo(history: seq<Event>, n: nat, id: ApprovalId, matter: Matter): nat
    requires n <= |history|
  {
    if n == 0 then 0
    else CountUpTo(history, n - 1, id, matter) + One(Concerns(history[n - 1], id, matter))
  }

  function Count(history: seq<Event>, id: ApprovalId, matter: Matter): nat {
    CountUpTo(history, |history|, id, matter)
  }

  lemma {:induction false} CountOfPrefix(a: seq<Event>, b: seq<Event>, n: nat, id: ApprovalId, matter: Matter)
    requires n <= |a| && n <= |b| && forall i :: 0 <= i < n ==> a[i] == b[i]
    ensures CountUpTo(a, n, id, matter) == CountUpTo(b, n, id, matter)
  {
    if n > 0 {
      CountOfPrefix(a, b, n - 1, id, matter);
    }
  }

  /** One more event. */
  lemma {:induction false} CountsAfter(before: seq<Event>, e: Event, id: ApprovalId)
    ensures forall matter :: Count(before + [e], id, matter) == Count(before, id, matter) + One(Concerns(e, id, matter))
  {
    forall matter
      ensures Count(before + [e], id, matter) == Count(before, id, matter) + One(Concerns(e, id, matter))
    {
      CountOfPrefix(before + [e], before, |before|, id, matter);
    }
  }

  /** Events that do not concern an approval leave its counts. */
  lemma {:induction false} CountOfOthers(history: seq<Event>, after: seq<Event>, n: nat, id: ApprovalId, matter: Matter)
    requires |history| <= n <= |after| && history <= after
    requires forall i :: |history| <= i < n ==> !Concerns(after[i], id, matter)
    ensures CountUpTo(after, n, id, matter) == Count(history, id, matter)
  {
    if n == |history| {
      CountOfPrefix(after, history, n, id, matter);
    } else {
      CountOfOthers(history, after, n - 1, id, matter);
    }
  }

  ghost predicate SameCounts(a: seq<Event>, b: seq<Event>, id: ApprovalId) {
    forall matter :: Count(a, id, matter) == Count(b, id, matter)
  }

  lemma {:induction false} SameCountsAfterOthers(history: seq<Event>, after: seq<Event>, id: ApprovalId)
    requires history <= after
    requires forall i, matter :: |history| <= i < |after| ==> !Concerns(after[i], id, matter)
    ensures SameCounts(after, history, id)
  {
    forall matter ensures Count(after, id, matter) == Count(history, id, matter) {
      CountOfOthers(history, after, |after|, id, matter);
    }
  }

  // ---------- the invariant ----------

  /** A row lock is held by a transaction busy with that row. */
  ghost predicate LockOk(s: System, id: ApprovalId) {
    id in s.locks ==>
      s.locks[id] in s.txns && Busy(s.txns[s.locks[id]]) && s.txns[s.locks[id]].target == id
  }

  /** A busy transaction holds the lock of a pending approval of its user. */
  ghost predicate TxnOk(s: System, txn: TxnId) {
    txn in s.txns && Busy(s.txns[txn]) ==>
      && Passes(s, s.txns[txn])
      && s.txns[txn].target in s.locks && s.locks[s.txns[txn].target] == txn
      && (s.txns[txn].phase.Answered? ==> s.txns[txn].kind.Approve?)
  }

  ghost predicate LocksHeld(s: System) {
    && (forall id {:trigger LockOk(s, id)} :: LockOk(s, id))
    && forall txn {:trigger TxnOk(s, txn)} :: TxnOk(s, txn)
  }

  function InFlight(s: System, id: ApprovalId): nat {
    One(id in s.locks && s.locks[id] in s.txns && s.txns[s.locks[id]].phase.Answered?)
  }

  predicate Undecided(s: System, id: ApprovalId) {
    id in s.approvals ==> s.approvals[id].status == Awaiting
  }

  /** The books balance for one approval. */
  ghost predicate Tally(s: System, id: ApprovalId) {
    && Count(s.history, id, Decisions) == One(!Undecided(s, id))
    && Count(s.history, id, Executions) == One(!Undecided(s, id) && s.approvals[id].status != Rejected)
    && Count(s.history, id, AgentCalls) ==
         Count(s.history, id, Executions) + Count(s.history, id, LostCalls) + InFlight(s, id)
  }

  /** Apart from its status an approval is what the executor stored, for an operation that needs approval. */
  ghost predicate Traced(s: System, registry: Registry, id: ApprovalId) {
    id in s.approvals ==>
      && id in s.origin && IdOf(s.origin[id]) == id
      && registry.requiresApproval(s.origin[id].service, s.origin[id].operation)
      && s.approvals[id].(status := Awaiting) == RowOf(s.origin[id]).(status := Awaiting)
  }

  /** A logged call was legitimate: made for its owner, with the stored action, before any decision. */
  ghost predicate Legitimate(s: System, registry: Registry, k: nat)
    requires k < |s.history|
  {
    var e := s.history[k];
    && (e.ApprovalCalled? ==>
          && e.id in s.approvals && s.approvals[e.id].userId == e.userId
          && s.approvals[e.id].action == Some(e.action)
          && Count(s.history[..k], e.id, Decisions) == 0)
    && (e.ExecutorCalled? ==> !registry.requiresApproval(e.call.service, e.call.operation))
  }

  /** Earlier in the history the transaction called the agent for this approval and was answered so. */
  ghost predicate WasAnswered(history: seq<Event>, k: nat, txn: TxnId, id: ApprovalId, answer: Status) {
    exists j :: 0 <= j < k && j < |history| && IsAnswer(history[j], txn, id, answer)
  }

  predicate IsAnswer(e: Event, txn: TxnId, id: ApprovalId, answer: Status) {
    e.ApprovalCalled? && e.txn == txn && e.id == id && e.reply.Replied? && e.reply.status == answer
  }

  /** A transaction with a reply got it from a call of its own. */
  ghost predicate ReplyKept(s: System, txn: TxnId) {
    txn in s.txns && s.txns[txn].phase.Answered? ==>
      WasAnswered(s.history, |s.history|, txn, s.txns[txn].target, s.txns[txn].phase.status)
  }

  /** A commit was made for the owner and left its status: by the answer to its call, or as rejected. */
  ghost predicate RightlyDecided(s: System, k: nat)
    requires k < |s.history|
  {
    var e := s.history[k];
    e.Committed? ==>
      && e.id in s.approvals && s.approvals[e.id].userId == e.userId && s.approvals[e.id].status == e.status
      && match e.kind
         case Reject => e.answer == None && e.status == Rejected
         case Approve =>
           && e.answer.Some? && WasAnswered(s.history, k, e.txn, e.id, e.answer.value)
           && e.status == if e.answer.value == Completed then Approved else ApprovalFailed
  }

  ghost predicate AllTallied(s: System) {
    forall id {:trigger Tally(s, id)} :: Tally(s, id)
  }

  ghost predicate Inv(s: System, registry: Registry) {
    && LocksHeld(s)
    && AllTallied(s)
    && (forall id {:trigger Traced(s, registry, id)} :: Traced(s, registry, id))
    && (forall txn {:trigger ReplyKept(s, txn)} :: ReplyKept(s, txn))
    && (forall k {:trigger RightlyDecided(s, k)} :: 0 <= k < |s.history| ==> RightlyDecided(s, k))
    && forall k {:trigger Legitimate(s, registry, k)} :: 0 <= k < |s.history| ==> Legitimate(s, registry, k)
  }

  // ---------- every move keeps it ----------

  lemma {:induction false} OtherRowsStay(approvals: map<ApprovalId, Row>, origin: map<ApprovalId, ApprovalRow>,
                                         rows: seq<ApprovalRow>, id: ApprovalId)
    requires forall row :: row in rows ==> IdOf(row) != id
    ensures id in AddRows(approvals, rows) <==> id in approvals
    ensures id in approvals ==> AddRows(approvals, rows)[id] == approvals[id]
    ensures id in AddOrigins(origin, rows) <==> id in origin
    ensures id in origin ==> AddOrigins(origin, rows)[id] == origin[id]
  {
    if rows != [] {
      OtherRowsStay(approvals, origin, rows[..|rows| - 1], id);
    }
  }

  lemma {:induction false} NewRowsAppear(approvals: map<ApprovalId, Row>, origin: map<ApprovalId, ApprovalRow>,
                                         rows: seq<ApprovalRow>, id: ApprovalId)
    requires exists row :: row in rows && IdOf(row) == id
    ensures id in AddRows(approvals, rows) && id in AddOrigins(origin, rows)
    ensures var row := AddOrigins(origin, rows)[id];
            row in rows && IdOf(row) == id && AddRows(approvals, rows)[id] == RowOf(row)
  {
    var front, last := rows[..|rows| - 1], rows[|rows| - 1];
    if IdOf(last) != id {
      var row :| row in rows && IdOf(row) == id;
      assert row in front;
      NewRowsAppear(approvals, origin, front, id);
    }
  }

  lemma {:induction false} QueryKeepsApprovals(s: System, registry: Registry, rows: seq<ApprovalRow>, calls: seq<Call>,
                                               id: ApprovalId)
    requires Enabled(s, registry, Query(rows, calls))
    ensures var next := Apply(s, registry, Query(rows, calls));
            && (id in s.approvals ==> id in next.approvals && next.approvals[id] == s.approvals[id])
            && (Undecided(s, id) <==> Undecided(next, id))
            && (id in next.approvals && id !in s.approvals ==>
                  && id in next.origin && next.origin[id] in rows && IdOf(next.origin[id]) == id
                  && next.approvals[id] == RowOf(next.origin[id]))
            && (id in s.approvals && id in s.origin ==> id in next.origin && next.origin[id] == s.origin[id])
  {
    if r :| r in rows && IdOf(r) == id {
      NewRowsAppear(s.approvals, s.origin, rows, id);
    } else {
      OtherRowsStay(s.approvals, s.origin, rows, id);
    }
  }

  function Actor(a: Move): Option<TxnId> {
    match a
    case Query(_, _) => None
    case Begin(txn, _, _, _) => Some(txn)
    case Lock(txn) => Some(txn)
    case CallAgent(txn, _) => Some(txn)
    case Commit(txn) => Some(txn)
    case Abort(txn) => Some(txn)
  }

  lemma {:induction false} LockKept(s: System, registry: Registry, a: Move, id: ApprovalId)
    requires LocksHeld(s) && Enabled(s, registry, a)
    ensures LockOk(Apply(s, registry, a), id)
  {
    assert LockOk(s, id);
    if Actor(a).Some? {
      assert TxnOk(s, Actor(a).value);
    }
  }

  lemma {:induction false} TxnKept(s: System, registry: Registry, a: Move, txn: TxnId)
    requires LocksHeld(s) && Enabled(s, registry, a)
    ensures TxnOk(Apply(s, registry, a), txn)
  {
    assert TxnOk(s, txn);
    if Actor(a).Some? {
      assert TxnOk(s, Actor(a).value);
    } else if txn in s.txns {
      QueryKeepsApprovals(s, registry, a.rows, a.calls, s.txns[txn].target);
    }
  }

  lemma {:induction false} LocksKept(s: System, registry: Registry, a: Move)
    requires LocksHeld(s) && Enabled(s, registry, a)
    ensures LocksHeld(Apply(s, registry, a))
  {
    forall id ensures LockOk(Apply(s, registry, a), id) {
      LockKept(s, registry, a, id);
    }
    forall txn ensures TxnOk(Apply(s, registry, a), txn) {
      TxnKept(s, registry, a, txn);
    }
  }

  lemma {:induction false} TracedKept(s: System, registry: Registry, a: Move, id: ApprovalId)
    requires Traced(s, registry, id) && Enabled(s, registry, a)
    ensures Traced(Apply(s, registry, a), registry, id)
  {
    match a
    case Query(rows, calls) =>
      QueryKeepsApprovals(s, registry, rows, calls, id);
    case _ =>
  }

  /** What a move appends to the history. */
  function Appended(s: System, registry: Registry, a: Move): seq<Event>
    requires Enabled(s, registry, a)
  {
    match a
    case Query(_, calls) => ExecutorEvents(calls)
    case CallAgent(txn, reply) =>
      var t := s.txns[txn];
      var called := CallOf(s, txn, reply);
      if reply.Replied? then [called] else [called, RolledBack(txn, t.target, true)]
    case Commit(txn) => [CommitOf(s, txn)]
    case Abort(txn) => [RolledBack(txn, s.txns[txn].target, s.txns[txn].phase.Answered?)]
    case _ => []
  }

  lemma {:induction false} HistoryAppends(s: System, registry: Registry, a: Move)
    requires Enabled(s, registry, a)
    ensures Apply(s, registry, a).history == s.history + Appended(s, registry, a)
  {
  }

  lemma {:induction false} TallyKeptByQuery(s: System, registry: Registry, rows: seq<ApprovalRow>, calls: seq<Call>,
                                            id: ApprovalId)
    requires LocksHeld(s) && Tally(s, id) && Enabled(s, registry, Query(rows, calls))
    ensures Tally(Apply(s, registry, Query(rows, calls)), id)
  {
    SameCountsAfterOthers(s.history, s.history + ExecutorEvents(calls), id);
    QueryKeepsApprovals(s, registry, rows, calls, id);
  }

  lemma {:induction false} TallyKeptByCall(s: System, registry: Registry, txn: TxnId, reply: AgentReply, id: ApprovalId)
    requires LocksHeld(s) && Tally(s, id) && Enabled(s, registry, CallAgent(txn, reply))
    ensures Tally(Called(s, registry, txn, reply), id)
  {
    var t := s.txns[txn];
    var called := CallOf(s, txn, reply);
    CountsAfter(s.history, called, id);
    if reply.Raised? {
      CountsAfter(s.history + [called], RolledBack(txn, t.target, true), id);
    }
    assert LockOk(s, id) && TxnOk(s, txn);
  }

  lemma {:induction false} TallyKeptByCommit(s: System, registry: Registry, txn: TxnId, id: ApprovalId)
    requires LocksHeld(s) && Tally(s, id) && Enabled(s, registry, Commit(txn))
    ensures Tally(Decide(s, txn), id)
  {
    CountsAfter(s.history, CommitOf(s, txn), id);
    assert LockOk(s, id) && TxnOk(s, txn);
  }

  lemma {:induction false} TallyKeptByAbort(s: System, registry: Registry, txn: TxnId, id: ApprovalId)
    requires LocksHeld(s) && Tally(s, id) && Enabled(s, registry, Abort(txn))
    ensures Tally(Undone(s, txn), id)
  {
    CountsAfter(s.history, RolledBack(txn, s.txns[txn].target, s.txns[txn].phase.Answered?), id);
    assert LockOk(s, id) && TxnOk(s, txn);
  }

  lemma {:induction false} TallyKept(s: System, registry: Registry, a: Move, id: ApprovalId)
    requires LocksHeld(s) && Tally(s, id) && Enabled(s, registry, a)
    ensures Tally(Apply(s, registry, a), id)
  {
    match a
    case Query(rows, calls) => TallyKeptByQuery(s, registry, rows, calls, id);
    case Begin(_, _, _, _) => assert LockOk(s, id);
    case Lock(_) => assert LockOk(s, id);
    case CallAgent(txn, reply) => TallyKeptByCall(s, registry, txn, reply, id);
    case Commit(txn) => TallyKeptByCommit(s, registry, txn, id);
    case Abort(txn) => TallyKeptByAbort(s, registry, txn, id);
  }

  lemma {:induction false} LegitimateStays(s: System, registry: Registry, a: Move, k: nat)
    requires Enabled(s, registry, a) && k < |s.history| && Legitimate(s, registry, k)
    ensures k < |Apply(s, registry, a).history| && Legitimate(Apply(s, registry, a), registry, k)
  {
    HistoryAppends(s, registry, a);
    var next := Apply(s, registry, a);
    assert next.history[..k] == s.history[..k] && next.history[k] == s.history[k];
    if a.Query? && s.history[k].ApprovalCalled? {
      QueryKeepsApprovals(s, registry, a.rows, a.calls, s.history[k].id);
    }
  }

  lemma {:induction false} AppendedIsLegitimate(s: System, registry: Registry, a: Move, k: nat)
    requires LocksHeld(s) && Enabled(s, registry, a)
    requires |s.history| <= k < |Apply(s, registry, a).history|
    requires AllTallied(s)
    ensures Legitimate(Apply(s, registry, a), registry, k)
  {
    HistoryAppends(s, registry, a);
    var next := Apply(s, registry, a);
    match a
    case Query(rows, calls) =>
      assert next.history[k] == ExecutorCalled(calls[k - |s.history|]);
    case CallAgent(txn, reply) =>
      assert TxnOk(s, txn) && Tally(s, s.txns[txn].target);
      if next.history[k].ApprovalCalled? {
        assert next.history[..k] == s.history;
      }
    case _ =>
  }

  predicate Decided(s: System, id: ApprovalId) {
    id in s.approvals && s.approvals[id].status != Awaiting
  }

  lemma {:induction false} DecidedStays(s: System, registry: Registry, a: Move, id: ApprovalId)
    requires LocksHeld(s) && Enabled(s, registry, a) && Decided(s, id)
    ensures var next := Apply(s, registry, a);
            Decided(next, id) && next.approvals[id] == s.approvals[id]
  {
    if a.Query? {
      QueryKeepsApprovals(s, registry, a.rows, a.calls, id);
    } else {
      assert TxnOk(s, Actor(a).value);
    }
  }

  lemma {:induction false} AnswersStay(history: seq<Event>, after: seq<Event>, k: nat, txn: TxnId, id: ApprovalId,
                                       answer: Status)
    requires history <= after && k <= |history| && WasAnswered(history, k, txn, id, answer)
    ensures WasAnswered(after, k, txn, id, answer) && WasAnswered(after, |after|, txn, id, answer)
  {
    var j :| 0 <= j < k && j < |history| && IsAnswer(history[j], txn, id, answer);
    assert IsAnswer(after[j], txn, id, answer);
  }

  lemma {:induction false} ReplyStaysKept(s: System, registry: Registry, a: Move, txn: TxnId)
    requires ReplyKept(s, txn) && Enabled(s, registry, a)
    ensures ReplyKept(Apply(s, registry, a), txn)
  {
    HistoryAppends(s, registry, a);
    var next := Apply(s, registry, a);
    if a.CallAgent? && a.txn == txn {
      assert next.history[|s.history|] == CallOf(s, txn, a.reply);
      assert a.reply.Replied? ==> IsAnswer(next.history[|s.history|], txn, s.txns[txn].target, a.reply.status);
    } else if txn in s.txns && s.txns[txn].phase.Answered? {
      AnswersStay(s.history, next.history, |s.history|, txn, s.txns[txn].target, s.txns[txn].phase.status);
    }
  }

  lemma {:induction false} RightlyDecidedStays(s: System, registry: Registry, a: Move, k: nat)
    requires LocksHeld(s) && Enabled(s, registry, a) && k < |s.history| && RightlyDecided(s, k)
    ensures k < |Apply(s, registry, a).history| && RightlyDecided(Apply(s, registry, a), k)
  {
    HistoryAppends(s, registry, a);
    var e, next := s.history[k], Apply(s, registry, a);
    assert next.history[k] == e;
    if e.Committed? {
      DecidedStays(s, registry, a, e.id);
      if e.kind.Approve? {
        AnswersStay(s.history, next.history, k, e.txn, e.id, e.answer.value);
      }
    }
  }

  lemma {:induction false} CommitIsRight(s: System, registry: Registry, txn: TxnId)
    requires LocksHeld(s) && Enabled(s, registry, Commit(txn)) && ReplyKept(s, txn)
    ensures RightlyDecided(Apply(s, registry, Commit(txn)), |s.history|)
  {
    var next, t := Apply(s, registry, Commit(txn)), s.txns[txn];
    assert TxnOk(s, txn);
    assert next.history[|s.history|] == CommitOf(s, txn);
    if t.kind.Approve? {
      AnswersStay(s.history, next.history, |s.history|, txn, t.target, t.phase.status);
    }
  }

  lemma {:induction false} AppendedIsRight(s: System, registry: Registry, a: Move, k: nat)
    requires LocksHeld(s) && Enabled(s, registry, a) && |s.history| <= k < |Apply(s, registry, a).history|
    requires forall txn {:trigger ReplyKept(s, txn)} :: ReplyKept(s, txn)
    ensures RightlyDecided(Apply(s, registry, a), k)
  {
    HistoryAppends(s, registry, a);
    if a.Commit? {
      assert ReplyKept(s, a.txn);
      CommitIsRight(s, registry, a.txn);
    } else {
      assert Apply(s, registry, a).history[k] == Appended(s, registry, a)[k - |s.history|];
    }
  }

  lemma {:induction false} InvKept(s: System, registry: Registry, a: Move)
    requires Inv(s, registry) && Enabled(s, registry, a)
    ensures Inv(Apply(s, registry, a), registry)
  {
    var next := Apply(s, registry, a);
    LocksKept(s, registry, a);
    forall id ensures Tally(next, id) {
      assert Tally(s, id);
      TallyKept(s, registry, a, id);
    }
    forall id ensures Traced(next, registry, id) {
      assert Traced(s, registry, id);
      TracedKept(s, registry, a, id);
    }
    forall txn ensures ReplyKept(next, txn) {
      assert ReplyKept(s, txn);
      ReplyStaysKept(s, registry, a, txn);
    }
    forall k | 0 <= k < |next.history| ensures RightlyDecided(next, k) {
      if k < |s.history| {
        assert RightlyDecided(s, k);
        RightlyDecidedStays(s, registry, a, k);
      } else {
        AppendedIsRight(s, registry, a, k);
      }
    }
    forall k | 0 <= k < |next.history| ensures Legitimate(next, registry, k) {
      if k < |s.history| {
        assert Legitimate(s, registry, k);
        LegitimateStays(s, registry, a, k);
      } else {
        AppendedIsLegitimate(s, registry, a, k);
      }
    }
  }
}
