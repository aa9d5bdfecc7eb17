/** When a request succeeds, what its record says, and what applying records leaves alone. */
module CopyMoveRecords {
  import opened Basics
  import opened CopyMove

  // ----- all or nothing -----

  /** What the catalog must have shown for a record to be journaled. */
  predicate Justified(c: Catalog, rec: Record)
  {
    var r := rec.request;
    && ValidRequest(r)
    && !VisibleView(c, (r.account, r.dest))
    && (r.account, r.dest) in c.mailboxes
    && c.mailboxes[(r.account, r.dest)] == Mailbox(true, true)
    && (r.account, r.dest) in c.uids && c.uids[(r.account, r.dest)].validity == r.destValidity
    && (rec.isMove ==> r.sourceKind.Ordinary?)
    && SourceMatches(c, r)
    && |rec.items| == |r.uids|
    && (forall i :: 0 <= i < |r.uids| ==> ItemMatches(c, r, r.uids[i], rec.items[i]))
    && (forall i, k :: 0 <= i < k < |rec.items| ==>
          rec.items[i].srcUid < rec.items[k].srcUid && rec.items[i].dstUid < rec.items[k].dstUid)
  }

  predicate SourceMatches(c: Catalog, r: Request)
  {
    var key := (r.account, r.source);
    var rows := if r.sourceKind.Ordinary? then c.uids else c.viewUids;
    var boxes := if r.sourceKind.Ordinary? then c.mailboxes else c.views;
    key in rows && rows[key].validity == r.sourceValidity && key in boxes && boxes[key] == Mailbox(true, true)
  }

  predicate ItemMatches(c: Catalog, r: Request, uid: nat, x: Item)
  {
    && x.srcUid == uid
    && MinDate(c.memberships, r.account, x.resolved.message) == Some(x.resolved.date)
    && if r.sourceKind.Ordinary?
       then exists m :: m in c.memberships && IsSource(m, r, uid) && m.message == x.resolved.message &&
              m.flags == x.resolved.flags && m.keywords == x.resolved.keywords
       else (exists m :: m in c.viewMemberships && IsViewSource(m, r, uid) && m.message == x.resolved.message) &&
            x.resolved.flags == [] && x.resolved.keywords == []
  }

  /** The items take the reserved block from its first UID on, one each. */
  predicate FillsBlock(rec: Record, b: Taken)
  {
    && b.key == (rec.request.account, rec.request.dest) && b.validity == rec.request.destValidity
    && b.copied && b.count == |rec.items|
    && forall i :: 0 <= i < |rec.items| ==> rec.items[i].dstUid == b.first + i
  }

  ghost predicate KnownMessage(c: Catalog, account: string, message: string)
  {
    exists m :: m in c.memberships && m.account == account && m.message == message
  }

  ghost predicate SourceExists(c: Catalog, r: Request, uid: nat)
  {
    if r.sourceKind.Ordinary? then exists m :: m in c.memberships && IsSource(m, r, uid)
    else exists m :: m in c.viewMemberships && IsViewSource(m, r, uid) && KnownMessage(c, r.account, m.message)
  }

  /** What a request needs of the catalog: a visible, selectable ordinary destination that no
      view hides, a visible, selectable source that a MOVE needs to be ordinary, matching
      UIDVALIDITYs, and a visible message under every UID. */
  ghost predicate Eligible(c: Catalog, isMove: bool, r: Request)
  {
    && ValidRequest(r)
    && !VisibleView(c, (r.account, r.dest))
    && (r.account, r.dest) in c.mailboxes && c.mailboxes[(r.account, r.dest)] == Mailbox(true, true)
    && (r.account, r.dest) in c.uids && c.uids[(r.account, r.dest)].validity == r.destValidity
    && (isMove ==> r.sourceKind.Ordinary?)
    && SourceMatches(c, r)
    && forall i :: 0 <= i < |r.uids| ==> SourceExists(c, r, r.uids[i])
  }

  predicate SameViewUid(m: ViewMembership, n: ViewMembership)
  {
    m.account == n.account && m.view == n.view && m.uid == n.uid
  }

  /** UNIQUE(account_id, view_id, uid) */
  predicate UniqueViewUids(c: Catalog)
  {
    forall m, n :: m in c.viewMemberships && n in c.viewMemberships && SameViewUid(m, n) ==> m == n
  }

  lemma {:induction false} MinDateKnown(ms: seq<Membership>, account: string, message: string)
    ensures MinDate(ms, account, message).Some? <==>
            exists i :: 0 <= i < |ms| && ms[i].account == account && ms[i].message == message
  {
    if ms != [] {
      MinDateKnown(ms[..|ms| - 1], account, message);
    }
  }

  lemma DateKnown(c: Catalog, account: string, message: string)
    ensures MinDate(c.memberships, account, message).Some? <==> KnownMessage(c, account, message)
  {
    hide MinDate;
    MinDateKnown(c.memberships, account, message);
    if m :| m in c.memberships && m.account == account && m.message == message {
      var i :| 0 <= i < |c.memberships| && c.memberships[i] == m;
    }
  }

  lemma ResolvesIff(c: Catalog, r: Request, uid: nat)
    requires UniqueViewUids(c)
    ensures Resolve(c, r, uid).Ok? <==> SourceExists(c, r, uid)
  {
    hide MinDate;
    if r.sourceKind.Ordinary? {
      var m := FindSource(c.memberships, r, uid);
      if m.Some? {
        DateKnown(c, r.account, m.value.message);
      }
    } else {
      var m := FindViewSource(c.viewMemberships, r, uid);
      if m.Some? {
        DateKnown(c, r.account, m.value.message);
      }
    }
  }

  lemma ChecksIff(c: Catalog, isMove: bool, r: Request)
    requires UniqueViewUids(c)
    ensures Eligible(c, isMove, r) <==>
            ValidRequest(r) && CheckDest(c, r).None? && CheckSource(c, isMove, r).None? && ResolveAll(c, r, r.uids).Ok?
  {
    hide Resolve, SourceExists, ResolveAll, ValidRequest;
    forall i | 0 <= i < |r.uids| ensures Resolve(c, r, r.uids[i]).Ok? <==> SourceExists(c, r, r.uids[i]) {
      ResolvesIff(c, r, r.uids[i]);
    }
  }

  /** A request succeeds exactly when the catalog is caught up, the request is eligible, the
      64-bit UID space has room and the journal takes the record. */
  lemma SucceedsIff(s: State, isMove: bool, r: Request, env: Env)
    requires UniqueViewUids(s.catalog)
    ensures CopyMoveStep(s, isMove, r, env).1.Ok? <==>
            && Eligible(s.catalog, isMove, r) && env.caughtUp && env.appends
            && var next := s.catalog.uids[(r.account, r.dest)].next;
               0 < next && next + |r.uids| <= UINT64_MAX
  {
    hide Resolve, SourceExists, ResolveAll, ValidRequest, CheckSource, UniqueViewUids, VisibleView, SourceMatches;
    ChecksIff(s.catalog, isMove, r);
  }

  /** The UIDVALIDITY of the request's source if that is open. */
  function OpenSource(c: Catalog, r: Request): Option<nat>
  {
    if r.sourceKind.Ordinary? then OpenRow(c.uids, c.mailboxes, (r.account, r.source))
    else OpenRow(c.viewUids, c.views, (r.account, r.source))
  }

  function OpenDest(c: Catalog, r: Request): Option<nat>
  {
    OpenRow(c.uids, c.mailboxes, (r.account, r.dest))
  }

  /** Why a valid request to a caught-up catalog is refused. PERMISSION_DENIED: a view as
      destination, or as the source of a MOVE. EXISTS: an open mailbox whose UIDVALIDITY differs.
      NOT_FOUND: a destination that is not open, or a source that is not, or a UID that does not
      resolve. INVALID_ARGUMENT: no room in the UID space. FAILED: UIDNEXT 0 or a failed append. */
  lemma RefusalsAreClassified(s: State, isMove: bool, r: Request, env: Env)
    requires ValidRequest(r) && env.caughtUp
    ensures var c, res := s.catalog, CopyMoveStep(s, isMove, r, env).1;
            var view, moveOfView := VisibleView(c, (r.account, r.dest)), isMove && r.sourceKind.Virtual?;
            var dest, source := OpenDest(c, r), OpenSource(c, r);
            var checked := !view && dest == Some(r.destValidity) && !moveOfView && source == Some(r.sourceValidity);
            var resolved := forall i :: 0 <= i < |r.uids| ==> Resolve(c, r, r.uids[i]).Ok?;
            && (res == Err(PermissionDenied) <==> view || (dest == Some(r.destValidity) && moveOfView))
            && (res == Err(Exists) <==>
                  !view && dest.Some? &&
                  (dest.value != r.destValidity || (!moveOfView && source.Some? && source.value != r.sourceValidity)))
            && (res == Err(NotFound) <==>
                  !view && (dest.None? || (dest.value == r.destValidity && !moveOfView &&
                                           (source.None? || (source.value == r.sourceValidity && !resolved)))))
            && (res == Err(InvalidArgument) <==>
                  checked && resolved && c.uids[(r.account, r.dest)].next != 0 &&
                  c.uids[(r.account, r.dest)].next + |r.uids| > UINT64_MAX)
            && (res == Err(Failed) <==>
                  checked && resolved &&
                  (c.uids[(r.account, r.dest)].next == 0 ||
                   (!env.appends && c.uids[(r.account, r.dest)].next + |r.uids| <= UINT64_MAX)))
  {
    hide ValidRequest, ResolveAll, Items, Resolve;
    ResolveAllErrors(s.catalog, r, r.uids);
    var c := s.catalog;
    assert (forall i :: 0 <= i < |r.uids| ==> Resolve(c, r, r.uids[i]).Ok?) <==> ResolveAll(c, r, r.uids).Ok?;
  }

  /** The UIDVALIDITY of a visible, selectable mailbox or view. */
  function OpenRow(rows: map<(string, string), UidRow>, boxes: map<(string, string), Mailbox>,
                   key: (string, string)): Option<nat>
  {
    if key in rows && key in boxes && boxes[key] == Mailbox(true, true) then Some(rows[key].validity) else None
  }

  lemma {:induction false} ResolveAllErrors(c: Catalog, r: Request, uids: seq<nat>)
    ensures ResolveAll(c, r, uids).Err? ==> ResolveAll(c, r, uids).error == NotFound
  {
    hide MinDate, FindSource, FindViewSource;
    if uids != [] {
      ResolveAllErrors(c, r, uids[1..]);
    }
  }

  predicate HasControl(t: string)
  {
    exists i :: 0 <= i < |t| && (t[i] < ' ' || t[i] == '\U{7f}')
  }

  /** What makes a request malformed, field by field. */
  predicate Malformed(r: Request)
  {
    || r.account == "" || r.source == "" || r.dest == ""
    || HasControl(r.account) || HasControl(r.source) || HasControl(r.dest)
    || r.sourceValidity == 0 || r.destValidity == 0
    || r.uids == [] || |r.uids| > 65535 || 0 in r.uids
    || exists i :: 0 <= i < |r.uids| - 1 && r.uids[i] >= r.uids[i + 1]
  }

  /** A malformed request is refused and changes nothing; every other one is valid. */
  lemma MalformedIsRefused(s: State, isMove: bool, r: Request, env: Env)
    ensures Malformed(r) ==> CopyMoveStep(s, isMove, r, env) == (s, Err(InvalidArgument))
    ensures !Malformed(r) ==> ValidRequest(r)
  {
    if Malformed(r) {
      assert !ValidRequest(r);
    } else {
      AscendingPairs(r.uids);
      assert forall i :: 0 <= i < |r.uids| ==> r.uids[i] in r.uids;
    }
  }

  lemma {:induction false} AscendingPairs(uids: seq<nat>)
    requires forall i :: 0 <= i < |uids| - 1 ==> uids[i] < uids[i + 1]
    ensures StrictlyAscending(uids)
  {
    if |uids| > 1 {
      var n := |uids| - 1;
      assert forall i :: 0 <= i < n ==> uids[..n][i] == uids[i];
      AscendingPairs(uids[..n]);
      assert uids[n - 1] < uids[n];
      forall i, k | 0 <= i < k < |uids| ensures uids[i] < uids[k] {
        if k == n && i < n - 1 {
          assert uids[..n][i] < uids[..n][n - 1];
        } else if k < n {
          assert uids[..n][i] < uids[..n][k];
        }
      }
    }
  }

  /** If any check or any source fails, neither UIDNEXT nor the journal changes. */
  lemma AllOrNothing(s: State, isMove: bool, r: Request, env: Env)
    requires UniqueViewUids(s.catalog) && !Eligible(s.catalog, isMove, r)
    ensures CopyMoveStep(s, isMove, r, env).1.Err? && CopyMoveStep(s, isMove, r, env).0 == s
  {
    hide Resolve, ResolveAll, Eligible, UniqueViewUids, CheckDest, CheckSource, ValidRequest;
    ChecksIff(s.catalog, isMove, r);
  }

  /** A failed request journals nothing and costs at most its reserved UIDs; a successful one
      journals one record, justified by the catalog, that fills its reserved block in order. */
  lemma JournaledRecordIsRight(s: State, isMove: bool, r: Request, env: Env)
    ensures var (t, res) := CopyMoveStep(s, isMove, r, env);
            && (res.Err? ==> t.journal == s.journal && t.catalog == s.catalog.(uids := t.catalog.uids))
            && (res.Ok? ==> t.journal == s.journal + [res.value] && Justified(s.catalog, res.value))
            && (res.Ok? ==> res.value.isMove == isMove && res.value.request == r)
            && (res.Ok? ==> exists b :: b in t.taken && FillsBlock(res.value, b))
  {
    hide MinDate, FindSource, FindViewSource, Justified, Resolve, CheckDest, CheckSource;
    var (t, res) := CopyMoveStep(s, isMove, r, env);
    if res.Ok? {
      JournaledIsJustified(s, isMove, r, env);
      var b := t.taken[|t.taken| - 1];
      assert b in t.taken && FillsBlock(res.value, b);
    }
  }

  lemma JournaledIsJustified(s: State, isMove: bool, r: Request, env: Env)
    requires CopyMoveStep(s, isMove, r, env).1.Ok?
    ensures Justified(s.catalog, CopyMoveStep(s, isMove, r, env).1.value)
  {
    hide MinDate, Resolve, ItemMatches;
    var rec := CopyMoveStep(s, isMove, r, env).1.value;
    forall i | 0 <= i < |r.uids| ensures ItemMatches(s.catalog, r, r.uids[i], rec.items[i]) {
      ResolvedMatches(s.catalog, r, r.uids[i], rec.items[i]);
    }
  }

  lemma ResolvedMatches(c: Catalog, r: Request, uid: nat, x: Item)
    requires Resolve(c, r, uid) == Ok(x.resolved) && x.srcUid == uid
    ensures ItemMatches(c, r, uid, x)
  {
    hide MinDate;
  }

  /** A reservation starts at UIDNEXT and raises it by exactly the number of UIDs, in this
      mailbox only; a request that gets no further than its checks changes no row. */
  lemma UidNextRisesExactly(s: State, isMove: bool, r: Request, env: Env)
    ensures var (t, res) := CopyMoveStep(s, isMove, r, env);
            var key := (r.account, r.dest);
            && (t.catalog.uids == s.catalog.uids ||
                (key in s.catalog.uids &&
                 t.catalog.uids == s.catalog.uids[key := s.catalog.uids[key].(next := s.catalog.uids[key].next + |r.uids|)]))
            && (res.Ok? ==> key in s.catalog.uids && t.catalog.uids != s.catalog.uids && res.value.items != [] &&
                              res.value.items[0].dstUid == s.catalog.uids[key].next)
  {
    hide ResolveAll, CheckDest, CheckSource;
    var (t, res) := CopyMoveStep(s, isMove, r, env);
    var key := (r.account, r.dest);
    if res.Ok? {
      assert t.catalog.uids[key].next == s.catalog.uids[key].next + |r.uids|;
    }
  }

  // ----- internal dates -----

  /** MinDate is the date of one of the message's memberships and no other is earlier. */
  lemma {:induction false} MinDateIsMinimum(ms: seq<Membership>, account: string, message: string)
    ensures var d := MinDate(ms, account, message);
            && (d.Some? ==> exists i :: 0 <= i < |ms| && IsCopy(ms[i], account, message) && ms[i].date == d.value)
            && (forall i :: 0 <= i < |ms| && IsCopy(ms[i], account, message) ==> d.Some? && d.value <= ms[i].date)
  {
    if ms != [] {
      var n := |ms| - 1;
      MinDateIsMinimum(ms[..n], account, message);
      if i :| 0 <= i < n && IsCopy(ms[..n][i], account, message) &&
              Some(ms[..n][i].date) == MinDate(ms[..n], account, message) {
        assert ms[i] == ms[..n][i];
      }
      assert forall i :: 0 <= i < n ==> ms[..n][i] == ms[i];
    }
  }

  predicate IsCopy(m: Membership, account: string, message: string)
  {
    m.account == account && m.message == message
  }

  lemma MinDateAppend(ms: seq<Membership>, m: Membership, account: string, message: string)
    ensures MinDate(ms + [m], account, message) ==
            var rest := MinDate(ms, account, message);
            if m.account != account || m.message != message then rest
            else if rest.None? || m.date < rest.value then Some(m.date)
            else rest
  {
    assert (ms + [m])[..|ms|] == ms;
  }

  lemma {:induction false} MinDateIgnoresVisibility(a: seq<Membership>, b: seq<Membership>, account: string, message: string)
    requires |a| == |b|
    requires forall i :: 0 <= i < |a| ==> b[i] == a[i] || b[i] == a[i].(visible := false)
    ensures MinDate(a, account, message) == MinDate(b, account, message)
  {
    if a != [] {
      MinDateIgnoresVisibility(a[..|a| - 1], b[..|b| - 1], account, message);
    }
  }

  /** Journaled copies carry the minimum internal date of their message. */
  predicate DatesSafe(s: State)
  {
    forall k, i :: 0 <= k < |s.journal| && 0 <= i < |s.journal[k].items| ==>
      DateSafe(s.catalog.memberships, s.journal[k], s.journal[k].items[i])
  }

  predicate DateSafe(ms: seq<Membership>, rec: Record, x: Item)
  {
    MinDate(ms, rec.request.account, x.resolved.message) == Some(x.resolved.date)
  }

  /** Every message with a membership keeps its minimum. */
  ghost predicate KeepsMinima(a: seq<Membership>, b: seq<Membership>)
  {
    forall account, message :: MinDate(a, account, message).Some? ==>
      MinDate(b, account, message) == MinDate(a, account, message)
  }

  lemma {:induction false} InsertKeepsMinima(ms: seq<Membership>, rec: Record, items: seq<Item>)
    requires forall i :: 0 <= i < |items| ==> DateSafe(ms, rec, items[i])
    ensures forall account, message ::
              MinDate(InsertItems(ms, rec, items), account, message) == MinDate(ms, account, message)
    decreases |items|
  {
    hide MinDate;
    if items != [] {
      var x := items[0];
      var m := Membership(rec.request.account, rec.request.dest, x.dstUid, x.resolved.message, x.resolved.date,
                          true, x.resolved.flags, x.resolved.keywords);
      forall account, message ensures MinDate(ms + [m], account, message) == MinDate(ms, account, message) {
        MinDateAppend(ms, m, account, message);
        assert DateSafe(ms, rec, items[0]);
      }
      InsertKeepsMinima(ms + [m], rec, items[1..]);
    }
  }

  lemma ApplyKeepsMinima(ms: seq<Membership>, rec: Record)
    requires forall i :: 0 <= i < |rec.items| ==> DateSafe(ms, rec, rec.items[i])
    ensures KeepsMinima(ms, Tombstone(InsertItems(ms, rec, rec.items), rec))
  {
    hide MinDate, Tombstone, InsertItems;
    var mid := InsertItems(ms, rec, rec.items);
    InsertKeepsMinima(ms, rec, rec.items);
    forall account, message ensures MinDate(Tombstone(mid, rec), account, message) == MinDate(mid, account, message) {
      MinDateIgnoresVisibility(mid, Tombstone(mid, rec), account, message);
    }
  }

  lemma StepKeepsMinima(s: State, op: Op)
    requires DatesSafe(s)
    ensures KeepsMinima(s.catalog.memberships, Step(s, op).catalog.memberships)
  {
    hide MinDate, Tombstone, InsertItems, ResolveAll, CheckDest, CheckSource;
    var ms := s.catalog.memberships;
    match op
    case Apply(k) =>
      if k < |s.journal| {
        ApplyKeepsMinima(ms, s.journal[k]);
      }
    case Deliver(m) =>
      forall account, message | MinDate(ms, account, message).Some? && MinDate(ms, m.account, m.message).None?
        ensures MinDate(ms + [m], account, message) == MinDate(ms, account, message)
      {
        MinDateAppend(ms, m, account, message);
      }
    case Expunge(i) =>
      if i < |ms| {
        forall account, message ensures
          MinDate(ms[i := ms[i].(visible := false)], account, message) == MinDate(ms, account, message)
        {
          MinDateIgnoresVisibility(ms, ms[i := ms[i].(visible := false)], account, message);
        }
      }
    case _ =>
  }

  lemma StepKeepsDates(s: State, op: Op)
    requires DatesSafe(s)
    ensures DatesSafe(Step(s, op))
  {
    hide MinDate, Tombstone, InsertItems, CopyMoveStep, ItemMatches, SourceMatches, VisibleView;
    StepKeepsMinima(s, op);
    var t := Step(s, op);
    if op.Submit? {
      JournaledRecordIsRight(s, op.isMove, op.request, op.env);
    }
    forall k, i | 0 <= k < |t.journal| && 0 <= i < |t.journal[k].items|
      ensures DateSafe(t.catalog.memberships, t.journal[k], t.journal[k].items[i])
    {
      if k < |s.journal| {
        assert t.journal[k] == s.journal[k];
        assert DateSafe(s.catalog.memberships, s.journal[k], s.journal[k].items[i]);
      } else {
        assert ItemMatches(s.catalog, op.request, op.request.uids[i], t.journal[k].items[i]);
        ItemDate(s.catalog, op.request, op.request.uids[i], t.journal[k].items[i]);
      }
    }
  }

  lemma ItemDate(c: Catalog, r: Request, uid: nat, x: Item)
    requires ItemMatches(c, r, uid, x)
    ensures MinDate(c.memberships, r.account, x.resolved.message) == Some(x.resolved.date)
  {
    hide MinDate;
  }

  lemma {:induction false} RunKeepsDates(s: State, ops: seq<Op>)
    requires DatesSafe(s)
    ensures DatesSafe(Run(s, ops))
    ensures KeepsMinima(s.catalog.memberships, Run(s, ops).catalog.memberships)
    decreases |ops|
  {
    hide Step, DatesSafe, MinDate;
    if ops != [] {
      StepKeepsMinima(s, ops[0]);
      StepKeepsDates(s, ops[0]);
      RunKeepsDates(Step(s, ops[0]), ops[1..]);
    }
  }

  lemma {:induction false} RunConcat(s: State, before: seq<Op>, after: seq<Op>)
    ensures Run(s, before + after) == Run(Run(s, before), after)
    decreases |before|
  {
    hide Step;
    if before == [] {
      assert before + after == after;
    } else {
      assert (before + after)[0] == before[0] && (before + after)[1..] == before[1..] + after;
      RunConcat(Step(s, before[0]), before[1..], after);
    }
  }

  /** Once a message has a membership, no run changes its minimum internal date. */
  lemma MinimumDateIsInvariant(before: seq<Op>, after: seq<Op>, account: string, message: string)
    requires MinDate(Run(Init(), before).catalog.memberships, account, message).Some?
    ensures MinDate(Run(Init(), before + after).catalog.memberships, account, message) ==
            MinDate(Run(Init(), before).catalog.memberships, account, message)
  {
    hide Step, MinDate;
    RunKeepsDates(Init(), before);
    RunKeepsDates(Run(Init(), before), after);
    RunConcat(Init(), before, after);
  }
}
