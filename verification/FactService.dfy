/**
 * Journalling of facts: single mutations and batches, each followed by one audit record that
 * names the last fact. Requests run on their own threads and share the journal with each other
 * and with other writers; any append can fail.
 */
module FactService {
  import opened Basics
  import FactPayload

  const MAX_ENTRIES := 1024

  datatype Operation = SingleMutation | BatchImport

  datatype Request = Request(operation: Operation, requestId: string, scopeId: bytes, entries: seq<FactPayload.Request>)

  /** covers is a history: where the audited facts are. */
  datatype Record =
    | Fact(insert: bool, payload: bytes)
    | Audit(operation: Operation, scopeId: bytes, count: nat, predicateId: Option<bytes>, final: nat, covers: seq<nat>)
    | Other

  // ----- validation before the first append -----

  predicate ValidRequest(r: Request)
  {
    && r.requestId != "" && 0 < |r.entries| <= MAX_ENTRIES && r.scopeId != []
    && (r.operation.SingleMutation? ==> |r.entries| == 1)
    && forall i :: 0 <= i < |r.entries| ==> ValidEntry(r.entries[i], r.scopeId)
  }

  predicate ValidEntry(e: FactPayload.Request, scope: bytes)
  {
    e.scopeId == scope && FactPayload.Encode(e).Ok?
  }

  method ValidateRequest(r: Request) returns (ok: bool)
    requires r.operation.SingleMutation? ==> |r.entries| == 1
    requires forall i :: 0 <= i < |r.entries| ==> |r.entries[i].arguments| <= FactPayload.UINT32_MAX
    ensures ok <==> ValidRequest(r)
  {
    if r.requestId == "" {
      return false;
    }
    if |r.entries| == 0 || |r.entries| > MAX_ENTRIES || r.scopeId == [] {
      return false;
    }
    for i := 0 to |r.entries|
      invariant forall k :: 0 <= k < i ==> ValidEntry(r.entries[k], r.scopeId)
    {
      if r.entries[i].scopeId != r.scopeId {
        return false;
      }
      var payload := FactPayload.EncodeRequest(r.entries[i]);
      if payload.Err? {
        return false;
      }
    }
    return true;
  }

  function FactOf(e: FactPayload.Request): Record
    requires FactPayload.Encode(e).Ok?
  {
    Fact(e.mutation == 0, FactPayload.Encode(e).value)
  }

  // ----- interleaved requests -----

  /** done: positions of the facts appended so far. */
  datatype Task = Task(request: Request, done: seq<nat>)

  datatype Owner = ByTask(task: nat) | ByAudit(index: nat) | Orphan

  /** owner is a history: which request or audit record each fact in the journal belongs to. */
  datatype State = State(journal: seq<Record>, active: map<nat, Task>, owner: map<nat, Owner>)

  datatype Op = Begin(id: nat, request: Request) | Append(id: nat, ok: bool) | AppendOther

  function AuditOf(t: Task): Record
    requires t.done != [] && t.request.entries != []
  {
    var r := t.request;
    Audit(r.operation, r.scopeId, |r.entries|,
          if r.operation.SingleMutation? then Some(r.entries[0].predicateId) else None,
          t.done[|t.done| - 1], t.done)
  }

  function Reassign(owner: map<nat, Owner>, positions: seq<nat>, to: Owner): map<nat, Owner>
  {
    map p | p in owner :: if p in positions then to else owner[p]
  }

  function AppendFact(s: State, id: nat): State
    requires id in s.active && ValidRequest(s.active[id].request)
    requires |s.active[id].done| < |s.active[id].request.entries|
  {
    var t := s.active[id];
    assert ValidEntry(t.request.entries[|t.done|], t.request.scopeId);
    var p := |s.journal|;
    State(s.journal + [FactOf(t.request.entries[|t.done|])],
          s.active[id := t.(done := t.done + [p])], s.owner[p := ByTask(id)])
  }

  function Finish(s: State, id: nat): State
    requires id in s.active && s.active[id].done != [] && s.active[id].request.entries != []
  {
    var t := s.active[id];
    State(s.journal + [AuditOf(t)], s.active - {id}, Reassign(s.owner, t.done, ByAudit(|s.journal|)))
  }

  /** A failed append ends the request; the facts it has journaled stay without an audit record. */
  function Abandon(s: State, id: nat): State
    requires id in s.active
  {
    s.(active := s.active - {id}, owner := Reassign(s.owner, s.active[id].done, Orphan))
  }

  predicate Usable(t: Task)
  {
    ValidRequest(t.request) && |t.done| <= |t.request.entries|
  }

  function Step(s: State, op: Op): State
  {
    match op
    case Begin(id, r) =>
      if id in s.active || !ValidRequest(r) then s else s.(active := s.active[id := Task(r, [])])
    case AppendOther => s.(journal := s.journal + [Other])
    case Append(id, ok) =>
      if id !in s.active || !Usable(s.active[id]) then s
      else if !ok then Abandon(s, id)
      else if |s.active[id].done| < |s.active[id].request.entries| then AppendFact(s, id)
      else Finish(s, id)
  }

  function Init(): State
  {
    State([], map[], map[])
  }

  function Run(s: State, ops: seq<Op>): State
    decreases |ops|
  {
    if ops == [] then s else Run(Step(s, ops[0]), ops[1..])
  }

  // ----- what every interleaving keeps -----

  predicate Ascending(ps: seq<nat>)
  {
    forall i, k :: 0 <= i < k < |ps| ==> ps[i] < ps[k]
  }

  /** The facts at these positions are the first of the request, in order, and decode to them. */
  predicate Journaled(journal: seq<Record>, r: Request, ps: seq<nat>)
  {
    && Ascending(ps) && |ps| <= |r.entries|
    && forall k :: 0 <= k < |ps| ==> ps[k] < |journal| && IsFact(journal[ps[k]], r.entries[k])
  }

  predicate IsFact(rec: Record, e: FactPayload.Request)
  {
    rec.Fact? && (rec.insert <==> e.mutation == 0) && FactPayload.Decode(rec.payload) == Ok(e)
  }

  predicate TaskSafe(s: State, id: nat)
    requires id in s.active
  {
    Usable(s.active[id]) && Journaled(s.journal, s.active[id].request, s.active[id].done)
  }

  /** An audit record comes after a whole request's facts and tells the truth about them. */
  ghost predicate AuditSafe(journal: seq<Record>, i: nat)
    requires i < |journal|
  {
    journal[i].Audit? ==> exists r :: Audits(journal, i, r)
  }

  predicate Audits(journal: seq<Record>, i: nat, r: Request)
    requires i < |journal| && journal[i].Audit?
  {
    var a := journal[i];
    && ValidRequest(r) && Journaled(journal, r, a.covers) && |a.covers| == |r.entries|
    && a.operation == r.operation && a.scopeId == r.scopeId && a.count == |r.entries|
    && a.final == a.covers[|a.covers| - 1] < i
    && a.predicateId == if r.operation.SingleMutation? then Some(r.entries[0].predicateId) else None
  }

  /** Every fact belongs to exactly one running request, audit record, or failed request. */
  ghost predicate OwnersSafe(s: State)
  {
    && (forall p: nat :: p in s.owner <==> p < |s.journal| && s.journal[p].Fact?)
    && (forall p :: p in s.owner ==> OwnerRight(s, p))
  }

  predicate OwnerRight(s: State, p: nat)
    requires p in s.owner
  {
    match s.owner[p]
    case ByTask(id) => id in s.active && p in s.active[id].done
    case ByAudit(i) => i < |s.journal| && s.journal[i].Audit? && p in s.journal[i].covers
    case Orphan => true
  }

  ghost predicate OwnersComplete(s: State)
  {
    && (forall id :: id in s.active ==> AllOwned(s.owner, s.active[id].done, ByTask(id)))
    && (forall i :: 0 <= i < |s.journal| && s.journal[i].Audit? ==>
          AllOwned(s.owner, s.journal[i].covers, ByAudit(i)))
  }

  predicate AllOwned(owner: map<nat, Owner>, ps: seq<nat>, who: Owner)
  {
    forall k :: 0 <= k < |ps| ==> ps[k] in owner && owner[ps[k]] == who
  }

  ghost predicate Safe(s: State)
  {
    && (forall id :: id in s.active ==> TaskSafe(s, id))
    && (forall i :: 0 <= i < |s.journal| ==> AuditSafe(s.journal, i))
    && OwnersSafe(s) && OwnersComplete(s)
  }

  lemma JournaledGrows(journal: seq<Record>, more: seq<Record>, r: Request, ps: seq<nat>)
    requires Journaled(journal, r, ps)
    ensures Journaled(journal + more, r, ps)
  {
    hide IsFact;
    forall k | 0 <= k < |ps| ensures ps[k] < |journal + more| && IsFact((journal + more)[ps[k]], r.entries[k]) {
      assert (journal + more)[ps[k]] == journal[ps[k]];
    }
  }

  lemma AuditSafeGrows(journal: seq<Record>, more: seq<Record>, i: nat)
    requires i < |journal| && AuditSafe(journal, i)
    ensures AuditSafe(journal + more, i)
  {
    hide ValidRequest, Journaled;
    if journal[i].Audit? {
      var r :| Audits(journal, i, r);
      JournaledGrows(journal, more, r, journal[i].covers);
      assert Audits(journal + more, i, r);
    }
  }

  lemma FactDecodes(e: FactPayload.Request)
    requires FactPayload.Encode(e).Ok?
    ensures IsFact(FactOf(e), e)
  {
    FactPayload.DecodeEncode(e);
  }

  lemma JournaledNext(journal: seq<Record>, r: Request, ps: seq<nat>)
    requires Journaled(journal, r, ps) && ValidRequest(r) && |ps| < |r.entries|
    ensures ValidEntry(r.entries[|ps|], r.scopeId)
    ensures Journaled(journal + [FactOf(r.entries[|ps|])], r, ps + [|journal|])
  {
    hide IsFact;
    assert ValidEntry(r.entries[|ps|], r.scopeId);
    FactDecodes(r.entries[|ps|]);
    JournaledGrows(journal, [FactOf(r.entries[|ps|])], r, ps);
  }

  /** Appending a record keeps what is said of the running requests and the audit records there were. */
  lemma OthersKeep(s: State, rec: Record)
    requires Safe(s)
    ensures forall id :: id in s.active ==>
              Usable(s.active[id]) && Journaled(s.journal + [rec], s.active[id].request, s.active[id].done)
    ensures forall i :: 0 <= i < |s.journal| ==> AuditSafe(s.journal + [rec], i)
  {
    hide ValidRequest, Journaled, AuditSafe, OwnersSafe, OwnersComplete;
    forall id | id in s.active
      ensures Usable(s.active[id]) && Journaled(s.journal + [rec], s.active[id].request, s.active[id].done)
    {
      assert TaskSafe(s, id);
      JournaledGrows(s.journal, [rec], s.active[id].request, s.active[id].done);
    }
    forall i | 0 <= i < |s.journal| ensures AuditSafe(s.journal + [rec], i) {
      AuditSafeGrows(s.journal, [rec], i);
    }
  }

  lemma AppendFactKeepsSafe(s: State, id: nat)
    requires Safe(s) && id in s.active && Usable(s.active[id])
    requires |s.active[id].done| < |s.active[id].request.entries|
    ensures Safe(AppendFact(s, id))
  {
    hide ValidRequest, Journaled, FactPayload.Encode, Audits;
    var n := AppendFact(s, id);
    var t := s.active[id];
    assert TaskSafe(s, id);
    JournaledNext(s.journal, t.request, t.done);
    OthersKeep(s, FactOf(t.request.entries[|t.done|]));
    AppendFactOwners(s, id);
  }

  lemma AppendFactOwners(s: State, id: nat)
    requires OwnersSafe(s) && OwnersComplete(s) && id in s.active && Usable(s.active[id])
    requires |s.active[id].done| < |s.active[id].request.entries|
    ensures OwnersSafe(AppendFact(s, id)) && OwnersComplete(AppendFact(s, id))
  {
    hide ValidRequest, FactPayload.Encode, AllOwned;
    var n := AppendFact(s, id);
    var slot := |s.journal|;
    assert forall i :: 0 <= i < |s.journal| ==> n.journal[i] == s.journal[i];
    forall p | p in n.owner ensures OwnerRight(n, p) {
      if p != slot {
        assert OwnerRight(s, p);
      }
    }
    forall k | k in n.active ensures AllOwned(n.owner, n.active[k].done, ByTask(k)) {
      OwnedGrows(s.owner, slot, id, s.active[k].done, ByTask(k));
    }
    forall i | 0 <= i < |n.journal| && n.journal[i].Audit? ensures AllOwned(n.owner, n.journal[i].covers, ByAudit(i)) {
      OwnedGrows(s.owner, slot, id, s.journal[i].covers, ByAudit(i));
    }
  }

  lemma OwnedGrows(owner: map<nat, Owner>, p: nat, id: nat, ps: seq<nat>, who: Owner)
    requires AllOwned(owner, ps, who) && p !in owner
    ensures AllOwned(owner[p := ByTask(id)], ps, who)
    ensures who == ByTask(id) ==> AllOwned(owner[p := ByTask(id)], ps + [p], who)
  {
  }

  lemma OwnedSurvives(owner: map<nat, Owner>, gone: seq<nat>, id: nat, to: Owner, ps: seq<nat>, who: Owner)
    requires AllOwned(owner, gone, ByTask(id)) && AllOwned(owner, ps, who)
    ensures who != ByTask(id) ==> AllOwned(Reassign(owner, gone, to), ps, who)
    ensures AllOwned(Reassign(owner, gone, to), gone, to)
  {
  }

  lemma FinishKeepsSafe(s: State, id: nat)
    requires Safe(s) && id in s.active && Usable(s.active[id])
    requires |s.active[id].done| == |s.active[id].request.entries|
    ensures s.active[id].done != [] && Safe(Finish(s, id))
  {
    hide Journaled, AuditSafe, Reassign;
    var t := s.active[id];
    assert TaskSafe(s, id);
    OthersKeep(s, AuditOf(t));
    var n := Finish(s, id);
    NewAudit(s.journal, t);
    FinishOwners(s, id);
  }

  lemma NewAudit(journal: seq<Record>, t: Task)
    requires ValidRequest(t.request) && |t.done| == |t.request.entries| && Journaled(journal, t.request, t.done)
    ensures AuditSafe(journal + [AuditOf(t)], |journal|)
  {
    hide IsFact, ValidEntry;
    JournaledGrows(journal, [AuditOf(t)], t.request, t.done);
    assert Audits(journal + [AuditOf(t)], |journal|, t.request);
  }

  lemma FinishOwners(s: State, id: nat)
    requires OwnersSafe(s) && OwnersComplete(s) && id in s.active && s.active[id].done != []
    requires s.active[id].request.entries != []
    ensures OwnersSafe(Finish(s, id)) && OwnersComplete(Finish(s, id))
  {
    hide AllOwned;
    var n := Finish(s, id);
    assert forall i :: 0 <= i < |s.journal| ==> n.journal[i] == s.journal[i];
    ReassignedOwners(s, id, n, ByAudit(|s.journal|));
  }

  lemma AbandonOwners(s: State, id: nat)
    requires OwnersSafe(s) && OwnersComplete(s) && id in s.active
    ensures OwnersSafe(Abandon(s, id)) && OwnersComplete(Abandon(s, id))
  {
    hide AllOwned;
    ReassignedOwners(s, id, Abandon(s, id), Orphan);
  }

  /** Ending a request hands its facts to its audit record, or to nobody. */
  lemma ReassignedOwners(s: State, id: nat, n: State, to: Owner)
    requires OwnersSafe(s) && OwnersComplete(s) && id in s.active
    requires n.active == s.active - {id} && n.owner == Reassign(s.owner, s.active[id].done, to)
    requires s.journal <= n.journal
    requires forall p: nat :: |s.journal| <= p < |n.journal| ==>
               n.journal[p].Audit? && to == ByAudit(p) && n.journal[p].covers == s.active[id].done
    requires to.Orphan? || (to.ByAudit? && |s.journal| == to.index < |n.journal|)
    ensures OwnersSafe(n) && OwnersComplete(n)
  {
    hide AllOwned;
    var gone := s.active[id].done;
    assert forall i :: 0 <= i < |s.journal| ==> n.journal[i] == s.journal[i];
    forall p | p in n.owner ensures OwnerRight(n, p) {
      assert OwnerRight(s, p);
    }
    forall k | k in n.active ensures AllOwned(n.owner, n.active[k].done, ByTask(k)) {
      OwnedSurvives(s.owner, gone, id, to, s.active[k].done, ByTask(k));
    }
    forall i | 0 <= i < |n.journal| && n.journal[i].Audit? ensures AllOwned(n.owner, n.journal[i].covers, ByAudit(i)) {
      if i < |s.journal| {
        OwnedSurvives(s.owner, gone, id, to, s.journal[i].covers, ByAudit(i));
      } else {
        OwnedSurvives(s.owner, gone, id, to, gone, ByTask(id));
      }
    }
  }

  lemma AbandonKeepsSafe(s: State, id: nat)
    requires Safe(s) && id in s.active
    ensures Safe(Abandon(s, id))
  {
    hide AuditSafe, Journaled, Usable, OwnersSafe, OwnersComplete;
    AbandonOwners(s, id);
    var n := Abandon(s, id);
    forall k | k in n.active ensures TaskSafe(n, k) {
      assert TaskSafe(s, k);
    }
  }

  lemma StepKeepsSafe(s: State, op: Op)
    requires Safe(s)
    ensures Safe(Step(s, op))
  {
    hide Safe, Step;
    match op
    case Begin(id, r) => BeginKeepsSafe(s, id, r);
    case AppendOther => OtherKeepsSafe(s);
    case Append(id, ok) => AppendKeepsSafe(s, id, ok);
  }

  lemma BeginKeepsSafe(s: State, id: nat, r: Request)
    requires Safe(s)
    ensures Safe(Step(s, Begin(id, r)))
  {
    hide AuditSafe, ValidRequest;
    var n := Step(s, Begin(id, r));
    if n != s {
      forall k | k in n.active ensures TaskSafe(n, k) {
        if k != id {
          assert TaskSafe(s, k);
        }
      }
    }
  }

  lemma OtherKeepsSafe(s: State)
    requires Safe(s)
    ensures Safe(Step(s, AppendOther))
  {
    var n := Step(s, AppendOther);
    assert AuditSafe(n.journal, |s.journal|);
    hide AuditSafe, Journaled, ValidRequest;
    OthersKeep(s, Other);
    assert forall i :: 0 <= i < |s.journal| ==> n.journal[i] == s.journal[i];
  }

  lemma AppendKeepsSafe(s: State, id: nat, ok: bool)
    requires Safe(s)
    ensures Safe(Step(s, Append(id, ok)))
  {
    hide Safe, AppendFact, Finish, Abandon, ValidRequest;
    if id in s.active && Usable(s.active[id]) {
      if !ok {
        AbandonKeepsSafe(s, id);
      } else if |s.active[id].done| < |s.active[id].request.entries| {
        AppendFactKeepsSafe(s, id);
      } else {
        FinishKeepsSafe(s, id);
      }
    }
  }

  lemma {:induction false} RunKeepsSafe(s: State, ops: seq<Op>)
    requires Safe(s)
    ensures Safe(Run(s, ops))
    decreases |ops|
  {
    hide Step, Safe;
    if ops != [] {
      StepKeepsSafe(s, ops[0]);
      RunKeepsSafe(Step(s, ops[0]), ops[1..]);
    }
  }

  /** Over every interleaving, an audit record names a whole valid request whose facts, in order,
      are in the journal before it and decode to the request's entries. */
  lemma EveryAuditIsTrue(ops: seq<Op>, i: nat)
    requires var j := Run(Init(), ops).journal; i < |j| && j[i].Audit?
    ensures exists r :: Audits(Run(Init(), ops).journal, i, r)
  {
    assert Safe(Init());
    hide Step, OwnersSafe, OwnersComplete;
    RunKeepsSafe(Init(), ops);
    assert AuditSafe(Run(Init(), ops).journal, i);
  }

  /** On every run each fact an audit record covers decodes to a fact of the scope it names. */
  lemma AuditedFactsHaveItsScope(ops: seq<Op>, i: nat, k: nat)
    requires var j := Run(Init(), ops).journal; i < |j| && j[i].Audit? && k < |j[i].covers|
    ensures var j := Run(Init(), ops).journal;
            && j[i].covers[k] < i && j[j[i].covers[k]].Fact?
            && FactPayload.Decode(j[j[i].covers[k]].payload).Ok?
            && FactPayload.Decode(j[j[i].covers[k]].payload).value.scopeId == j[i].scopeId
  {
    hide Run, FactPayload.Decode, FactPayload.Encode;
    EveryAuditIsTrue(ops, i);
    var j := Run(Init(), ops).journal;
    var r :| Audits(j, i, r);
    assert IsFact(j[j[i].covers[k]], r.entries[k]);
    assert ValidEntry(r.entries[k], r.scopeId);
    assert j[i].covers[k] <= j[i].final;
  }

  /** What is wrong with a request, in terms of its fields alone. */
  predicate Defective(r: Request)
  {
    || r.requestId == "" || r.scopeId == [] || |r.entries| == 0 || |r.entries| > 1024
    || (r.operation.SingleMutation? && |r.entries| != 1)
    || exists i :: 0 <= i < |r.entries| && (r.entries[i].scopeId != r.scopeId || !Encodable(r.entries[i]))
  }

  predicate Encodable(e: FactPayload.Request)
  {
    FactPayload.Valid(e) && FactPayload.Short(e) && |FactPayload.Payload(e)| <= FactPayload.SIZE_MAX
  }

  /** A request is refused exactly when it has such a defect, a foreign scope in one entry included. */
  lemma RefusedIffDefective(s: State, id: nat, r: Request)
    requires id !in s.active
    ensures Step(s, Begin(id, r)) == s <==> Defective(r)
  {
    hide FactPayload.Valid, FactPayload.Short, FactPayload.Payload;
    if Defective(r) {
      if i :| 0 <= i < |r.entries| && (r.entries[i].scopeId != r.scopeId || !Encodable(r.entries[i])) {
        assert !ValidEntry(r.entries[i], r.scopeId);
      }
      assert !ValidRequest(r);
    } else {
      forall i | 0 <= i < |r.entries| ensures ValidEntry(r.entries[i], r.scopeId) {
        assert Encodable(r.entries[i]);
      }
      assert ValidRequest(r);
      assert id in Step(s, Begin(id, r)).active;
    }
  }

  /** And then nothing it goes on to try is appended. */
  lemma {:induction false} RefusedAppendsNothing(s: State, id: nat, r: Request, oks: seq<bool>)
    requires id !in s.active && Defective(r)
    ensures Run(s, [Begin(id, r)] + seq(|oks|, i requires 0 <= i < |oks| => Append(id, oks[i]))) == s
  {
    hide Step, Defective;
    RefusedIffDefective(s, id, r);
    var appends := seq(|oks|, i requires 0 <= i < |oks| => Append(id, oks[i]));
    assert ([Begin(id, r)] + appends)[1..] == appends;
    IdleAppends(s, id, appends);
  }

  lemma {:induction false} IdleAppends(s: State, id: nat, ops: seq<Op>)
    requires id !in s.active && forall k :: 0 <= k < |ops| ==> ops[k].Append? && ops[k].id == id
    ensures Run(s, ops) == s
    decreases |ops|
  {
    if ops != [] {
      assert Step(s, ops[0]) == s;
      IdleAppends(s, id, ops[1..]);
    }
  }

  /** No fact is audited twice. */
  lemma NoFactIsAuditedTwice(ops: seq<Op>, i: nat, k: nat, p: nat)
    requires var j := Run(Init(), ops).journal;
             && i < |j| && j[i].Audit? && p in j[i].covers
             && k < |j| && j[k].Audit? && p in j[k].covers
    ensures i == k
  {
    assert Safe(Init());
    hide Step, AuditSafe, TaskSafe;
    RunKeepsSafe(Init(), ops);
    var s := Run(Init(), ops);
    assert AllOwned(s.owner, s.journal[i].covers, ByAudit(i));
    assert AllOwned(s.owner, s.journal[k].covers, ByAudit(k));
  }

  /** Some audit record covers the fact at p. */
  ghost predicate Audited(journal: seq<Record>, p: nat)
  {
    exists i :: 0 <= i < |journal| && journal[i].Audit? && p in journal[i].covers
  }

  ghost predicate Running(s: State, p: nat)
  {
    exists id :: id in s.active && p in s.active[id].done
  }

  /** A fact that neither a running request nor an audit record accounts for. */
  ghost predicate HasOrphan(s: State)
  {
    exists p: nat :: p < |s.journal| && s.journal[p].Fact? && !Audited(s.journal, p) && !Running(s, p)
  }

  lemma OrphanIsUnaccounted(s: State)
    requires Safe(s)
    ensures HasOrphan(s) <==> exists p :: p in s.owner && s.owner[p].Orphan?
  {
    hide AuditSafe, TaskSafe, AllOwned;
    if p :| p in s.owner && s.owner[p].Orphan? {
      assert !Audited(s.journal, p) by {
        if i :| 0 <= i < |s.journal| && s.journal[i].Audit? && p in s.journal[i].covers {
          OwnedMember(s.owner, s.journal[i].covers, ByAudit(i), p);
        }
      }
      assert !Running(s, p) by {
        if id :| id in s.active && p in s.active[id].done {
          OwnedMember(s.owner, s.active[id].done, ByTask(id), p);
        }
      }
    }
    if p: nat :| p < |s.journal| && s.journal[p].Fact? && !Audited(s.journal, p) && !Running(s, p) {
      assert p in s.owner && OwnerRight(s, p);
    }
  }

  lemma OwnedMember(owner: map<nat, Owner>, ps: seq<nat>, who: Owner, p: nat)
    requires AllOwned(owner, ps, who) && p in ps
    ensures p in owner && owner[p] == who
  {
  }

  /** Does this append fail after the request has journaled some fact? */
  predicate FailsMidway(s: State, op: Op)
  {
    op.Append? && !op.ok && op.id in s.active && Usable(s.active[op.id]) && s.active[op.id].done != []
  }

  predicate EverFailsMidway(s: State, ops: seq<Op>)
    decreases |ops|
  {
    ops != [] && (FailsMidway(s, ops[0]) || EverFailsMidway(Step(s, ops[0]), ops[1..]))
  }

  ghost predicate OwnsOrphan(s: State)
  {
    exists p :: p in s.owner && s.owner[p].Orphan?
  }

  lemma OrphanStep(s: State, op: Op)
    requires Safe(s)
    ensures OwnsOrphan(Step(s, op)) <==> OwnsOrphan(s) || FailsMidway(s, op)
  {
    hide AuditSafe, TaskSafe, ValidRequest;
    var n := Step(s, op);
    if p :| p in s.owner && s.owner[p].Orphan? {
      assert p < |s.journal| by {
        assert OwnersSafe(s);
      }
      if op.Append? && op.id in s.active && Usable(s.active[op.id]) {
        assert p !in s.active[op.id].done by {
          assert AllOwned(s.owner, s.active[op.id].done, ByTask(op.id));
        }
      }
      assert p in n.owner && n.owner[p].Orphan?;
    }
    if FailsMidway(s, op) {
      var p := s.active[op.id].done[0];
      assert AllOwned(s.owner, s.active[op.id].done, ByTask(op.id));
      assert n.owner[p].Orphan?;
    }
  }

  lemma {:induction false} OrphanRun(s: State, ops: seq<Op>)
    requires Safe(s)
    ensures OwnsOrphan(Run(s, ops)) <==> OwnsOrphan(s) || EverFailsMidway(s, ops)
    decreases |ops|
  {
    hide Step, Safe, FailsMidway, OwnsOrphan;
    if ops != [] {
      OrphanStep(s, ops[0]);
      StepKeepsSafe(s, ops[0]);
      OrphanRun(Step(s, ops[0]), ops[1..]);
    }
  }

  /** The journal holds a fact without audit record or running request exactly when some
      append failed after the first fact of its request. */
  lemma UnauditedFactsIff(ops: seq<Op>)
    ensures HasOrphan(Run(Init(), ops)) <==> EverFailsMidway(Init(), ops)
  {
    assert Safe(Init());
    hide Step, Safe, HasOrphan;
    RunKeepsSafe(Init(), ops);
    OrphanRun(Init(), ops);
    OrphanIsUnaccounted(Run(Init(), ops));
  }

  /** Inserts fact p in scope u. */
  function SmallEntry(): FactPayload.Request
  {
    FactPayload.Request(0, [0x70], [0x75], [])
  }

  /** A batch of two whose second append fails. */
  function MidwayRun(): seq<Op>
  {
    [Begin(0, Request(BatchImport, "r", [0x75], [SmallEntry(), SmallEntry()])), Append(0, true), Append(0, false)]
  }

  lemma SmallEntryEncodes()
    ensures FactPayload.Encode(SmallEntry()).Ok?
  {
    var e := SmallEntry();
    assert FactPayload.Valid(e) && FactPayload.Short(e) && FactPayload.Strs([]) == [];
  }

  /** So its first fact stays in the journal without an audit record. */
  lemma FactsCanStayUnaudited()
    ensures HasOrphan(Run(Init(), MidwayRun()))
  {
    hide FactPayload.Encode, HasOrphan;
    SmallEntryEncodes();
    var ops := MidwayRun();
    assert ops[1..] == [ops[1], ops[2]] && [ops[1], ops[2]][1..] == [ops[2]];
    var r := ops[0].request;
    assert ValidRequest(r);
    var s1 := Step(Init(), ops[0]);
    assert s1.active == map[0 := Task(r, [])];
    var s2 := Step(s1, ops[1]);
    assert s2.active[0].done == [0];
    assert FailsMidway(s2, ops[2]);
    assert EverFailsMidway(s2, [ops[2]]) && EverFailsMidway(s1, [ops[1], ops[2]]);
    UnauditedFactsIff(ops);
  }

  // ----- one request on its own -----

  predicate AllEncode(entries: seq<FactPayload.Request>)
  {
    forall i :: 0 <= i < |entries| ==> FactPayload.Encode(entries[i]).Ok?
  }

  function FactsOf(entries: seq<FactPayload.Request>): (r: seq<Record>)
    requires AllEncode(entries)
    ensures |r| == |entries|
  {
    seq(|entries|, i requires 0 <= i < |entries| => FactOf(entries[i]))
  }

  /** What the journal gains when append number failAt (from 0) is the first to fail. */
  function Gained(r: Request, start: nat, failAt: nat): seq<Record>
    requires ValidRequest(r)
  {
    var n := |r.entries|;
    var k := if failAt < n then failAt else n;
    assert forall i :: 0 <= i < k ==> ValidEntry(r.entries[i], r.scopeId);
    var facts := FactsOf(r.entries[..k]);
    if failAt <= n then facts else facts + [AuditOf(Task(r, seq(n, i => start + i)))]
  }

  /** The appends of one request from number k on, none of another writer in between. */
  function Appends(id: nat, n: nat, k: nat, failAt: nat): seq<Op>
    decreases n + 1 - k
  {
    if k > n then []
    else if k == failAt then [Append(id, false)]
    else [Append(id, true)] + Appends(id, n, k + 1, failAt)
  }

  /** Left alone, a request's steps give the journal exactly what the request alone would. */
  lemma UninterruptedRequest(s: State, id: nat, r: Request, failAt: nat)
    requires id !in s.active && ValidRequest(r)
    ensures Run(s, [Begin(id, r)] + Appends(id, |r.entries|, 0, failAt)).journal ==
            s.journal + Gained(r, |s.journal|, failAt)
  {
    hide ValidRequest, Gained, FactPayload.Encode;
    var ops := Appends(id, |r.entries|, 0, failAt);
    assert ([Begin(id, r)] + ops)[1..] == ops;
    var t := Step(s, Begin(id, r));
    assert r.entries[..0] == [] && s.journal + FactsOf([]) == s.journal;
    RunAppends(t, s.journal, id, r, 0, failAt);
  }

  lemma {:induction false} RunAppends(s: State, base: seq<Record>, id: nat, r: Request, k: nat, failAt: nat)
    requires ValidRequest(r) && k <= |r.entries| && k <= failAt
    requires id in s.active && s.active[id] == Task(r, seq(k, i => |base| + i))
    requires AllEncode(r.entries[..k])
    requires s.journal == base + FactsOf(r.entries[..k])
    ensures Run(s, Appends(id, |r.entries|, k, failAt)).journal == base + Gained(r, |base|, failAt)
    decreases |r.entries| + 1 - k
  {
    hide ValidEntry, FactPayload.Encode, Gained, Reassign, Finish, Abandon, FactsOf;
    var n := |r.entries|;
    var ops := Appends(id, n, k, failAt);
    var t := Step(s, ops[0]);
    assert Run(t, []) == t;
    if k < n && k != failAt {
      Encodes(r, k);
      assert ops[1..] == Appends(id, n, k + 1, failAt);
      NextFact(r, k);
      assert seq(k + 1, i => |base| + i) == seq(k, i => |base| + i) + [|base| + k];
      RunAppends(t, base, id, r, k + 1, failAt);
    } else {
      assert Appends(id, n, n + 1, failAt) == [];
      assert ops[1..] == [];
      LastAppend(s, base, id, r, k, failAt);
    }
  }

  lemma NextFact(r: Request, k: nat)
    requires k < |r.entries| && FactPayload.Encode(r.entries[k]).Ok?
    requires AllEncode(r.entries[..k])
    ensures AllEncode(r.entries[..k + 1])
    ensures FactsOf(r.entries[..k + 1]) == FactsOf(r.entries[..k]) + [FactOf(r.entries[k])]
  {
    hide FactPayload.Encode;
    assert r.entries[..k + 1] == r.entries[..k] + [r.entries[k]];
  }

  lemma LastAppend(s: State, base: seq<Record>, id: nat, r: Request, k: nat, failAt: nat)
    requires ValidRequest(r) && k <= |r.entries| && k <= failAt && (k == failAt || k == |r.entries|)
    requires id in s.active && s.active[id] == Task(r, seq(k, i => |base| + i))
    requires AllEncode(r.entries[..k])
    requires s.journal == base + FactsOf(r.entries[..k])
    ensures Step(s, Append(id, k != failAt)).journal == base + Gained(r, |base|, failAt)
  {
    hide ValidEntry, FactPayload.Encode, Reassign;
  }

  class FactMutationService {
    var journal: seq<Record>

    /** Entries in order, then one audit record naming the last position. A request that fails
        validation appends nothing; a failing append leaves what came before it. */
    method HandleFacts(r: Request, failAt: nat) returns (final: Option<nat>)
      requires r.operation.SingleMutation? ==> |r.entries| == 1
      requires forall i :: 0 <= i < |r.entries| ==> |r.entries[i].arguments| <= FactPayload.UINT32_MAX
      modifies this
      ensures !ValidRequest(r) ==> final.None? && journal == old(journal)
      ensures ValidRequest(r) ==> journal == old(journal) + Gained(r, |old(journal)|, failAt)
      ensures final.Some? <==> ValidRequest(r) && failAt > |r.entries|
      ensures final.Some? ==> final.value == |old(journal)| + |r.entries| - 1
    {
      hide ValidEntry, FactPayload.Encode;
      var valid := ValidateRequest(r);
      if !valid {
        return None;
      }
      ghost var start := |journal|;
      var done: seq<nat> := [];
      for i := 0 to |r.entries|
        invariant i <= failAt && done == seq(i, k => start + k)
        invariant AllEncode(r.entries[..i])
        invariant journal == old(journal) + FactsOf(r.entries[..i])
      {
        Encodes(r, i);
        assert r.entries[..i + 1] == r.entries[..i] + [r.entries[i]];
        if i == failAt {
          return None;
        }
        done := done + [|journal|];
        journal := journal + [FactOf(r.entries[i])];
      }
      if failAt == |r.entries| {
        return None;
      }
      journal := journal + [AuditOf(Task(r, done))];
      return Some(done[|done| - 1]);
    }
  }

  lemma Encodes(r: Request, i: nat)
    requires ValidRequest(r) && i < |r.entries|
    ensures FactPayload.Encode(r.entries[i]).Ok?
  {
    assert ValidEntry(r.entries[i], r.scopeId);
  }
}
