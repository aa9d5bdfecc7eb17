/** Over every run, which UIDs COPY, MOVE and the other writers of a mailbox hand out. */
module CopyMoveUids {
  import opened Basics
  import opened CopyMove

  // ----- destination UIDs -----

  predicate RowsBounded(rows: map<(string, string), UidRow>)
  {
    forall key :: key in rows ==> 1 <= rows[key].next <= UINT64_MAX
  }

  /** A block of this service lies below UIDNEXT for as long as its UIDVALIDITY lasts. */
  predicate BlockBelow(b: Taken, rows: map<(string, string), UidRow>)
  {
    && b.key in rows && b.validity <= rows[b.key].validity
    && 1 <= b.first && 1 <= b.count && b.first + b.count <= UINT64_MAX
    && (b.validity == rows[b.key].validity ==> b.first + b.count <= rows[b.key].next)
  }

  predicate SameSpace(a: Taken, b: Taken)
  {
    a.key == b.key && a.validity == b.validity
  }

  predicate CopiesSafe(s: State)
  {
    && RowsBounded(s.catalog.uids)
    && (forall i :: 0 <= i < |s.taken| && s.taken[i].copied ==> BlockBelow(s.taken[i], s.catalog.uids))
    && (forall i, k :: (0 <= i < k < |s.taken| && s.taken[i].copied && s.taken[k].copied &&
                        SameSpace(s.taken[i], s.taken[k])) ==>
          s.taken[i].first + s.taken[i].count <= s.taken[k].first)
  }

  lemma ReserveKeepsCopies(s: State, r: Request, n: nat, between: nat)
    requires CopiesSafe(s) && n > 0 && Reserve(s, r, n, between).Ok?
    ensures CopiesSafe(Reserve(s, r, n, between).value.0)
  {
    var (t, first) := Reserve(s, r, n, between).value;
    var key := (r.account, r.dest);
    var m := |s.taken|;
    assert forall i :: 0 <= i < m ==> t.taken[i] == s.taken[i];
    forall i | 0 <= i < |t.taken| && t.taken[i].copied ensures BlockBelow(t.taken[i], t.catalog.uids) {
      if i < m {
        assert BlockBelow(s.taken[i], s.catalog.uids);
      }
    }
    forall i, k | 0 <= i < k < |t.taken| && t.taken[i].copied && t.taken[k].copied && SameSpace(t.taken[i], t.taken[k])
      ensures t.taken[i].first + t.taken[i].count <= t.taken[k].first
    {
      if k >= m {
        assert BlockBelow(s.taken[i], s.catalog.uids);
      }
    }
  }

  lemma StepKeepsCopies(s: State, op: Op)
    requires CopiesSafe(s)
    ensures CopiesSafe(Step(s, op))
  {
    hide ResolveAll, CheckDest, CheckSource, InsertItems, Tombstone, MinDate;
    match op
    case Submit(isMove, r, env) =>
      if ValidRequest(r) && Reserve(s, r, |r.uids|, env.between).Ok? {
        ReserveKeepsCopies(s, r, |r.uids|, env.between);
      }
    case OtherWriter(account, mailbox, count) => RaiseKeepsCopies(s, op);
    case NewUidState(account, mailbox, validity) => RaiseKeepsCopies(s, op);
    case _ =>
  }

  lemma RaiseKeepsCopies(s: State, op: Op)
    requires CopiesSafe(s) && (op.OtherWriter? || op.NewUidState?)
    ensures CopiesSafe(Step(s, op))
  {
    var t := Step(s, op);
    assert forall i :: 0 <= i < |s.taken| ==> t.taken[i] == s.taken[i];
    forall i | 0 <= i < |t.taken| && t.taken[i].copied ensures BlockBelow(t.taken[i], t.catalog.uids) {
      assert BlockBelow(s.taken[i], s.catalog.uids);
    }
  }

  lemma {:induction false} RunKeepsCopies(s: State, ops: seq<Op>)
    requires CopiesSafe(s)
    ensures CopiesSafe(Run(s, ops))
    decreases |ops|
  {
    hide Step, CopiesSafe;
    if ops != [] {
      StepKeepsCopies(s, ops[0]);
      RunKeepsCopies(Step(s, ops[0]), ops[1..]);
    }
  }

  /** Over every run, also of requests whose append failed after the reservation, the blocks
      reserved for one mailbox and UIDVALIDITY are non-zero, ascending in reservation order,
      disjoint, below UIDNEXT and free of 64-bit wrap-around. */
  lemma ReservedBlocksAreDisjoint(ops: seq<Op>, i: nat, k: nat)
    requires var s := Run(Init(), ops); i < |s.taken| && s.taken[i].copied && k < |s.taken| && s.taken[k].copied
    ensures var s := Run(Init(), ops);
            && BlockBelow(s.taken[i], s.catalog.uids)
            && (i < k && SameSpace(s.taken[i], s.taken[k]) ==>
                  s.taken[i].first + s.taken[i].count <= s.taken[k].first)
  {
    RunKeepsCopies(Init(), ops);
  }

  // ----- the other writers of a mailbox -----

  predicate Overlap(a: Taken, b: Taken)
  {
    SameSpace(a, b) && a.first < b.first + b.count && b.first < a.first + a.count
  }

  predicate AllDisjoint(taken: seq<Taken>)
  {
    forall i, k :: 0 <= i < k < |taken| ==> !Overlap(taken[i], taken[k])
  }

  /** Does this step reserve while another writer takes UIDs from the same mailbox? */
  predicate Interferes(s: State, op: Op)
  {
    op.Submit? && op.env.between > 0 && Step(s, op).taken != s.taken
  }

  predicate Interference(s: State, ops: seq<Op>)
    decreases |ops|
  {
    ops != [] && (Interferes(s, ops[0]) || Interference(Step(s, ops[0]), ops[1..]))
  }

  predicate AllBelow(s: State)
  {
    && RowsBounded(s.catalog.uids)
    && (forall i :: 0 <= i < |s.taken| ==> BlockBelow(s.taken[i], s.catalog.uids))
    && AllDisjoint(s.taken)
  }

  lemma BlockJoins(taken: seq<Taken>, rows: map<(string, string), UidRow>, b: Taken)
    requires forall i :: 0 <= i < |taken| ==> BlockBelow(taken[i], rows)
    requires b.key in rows && b.validity == rows[b.key].validity && rows[b.key].next <= b.first
    requires AllDisjoint(taken)
    ensures AllDisjoint(taken + [b])
  {
    forall i | 0 <= i < |taken| ensures !Overlap(taken[i], b) {
      assert BlockBelow(taken[i], rows);
    }
  }

  /** Handing out block b raises its row, and every older block stays below. */
  lemma RowRisen(taken: seq<Taken>, rows: map<(string, string), UidRow>, b: Taken)
    requires forall i :: 0 <= i < |taken| ==> BlockBelow(taken[i], rows)
    requires b.key in rows && b.validity == rows[b.key].validity && rows[b.key].next == b.first
    requires 1 <= b.first && 1 <= b.count && b.first + b.count <= UINT64_MAX && AllDisjoint(taken)
    ensures var after := rows[b.key := UidRow(b.validity, b.first + b.count)];
            && (forall i :: 0 <= i < |taken + [b]| ==> BlockBelow((taken + [b])[i], after))
            && (RowsBounded(rows) ==> RowsBounded(after))
    ensures AllDisjoint(taken + [b])
  {
    BlockJoins(taken, rows, b);
    var after := rows[b.key := UidRow(b.validity, b.first + b.count)];
    forall i | 0 <= i < |taken + [b]| ensures BlockBelow((taken + [b])[i], after) {
      if i < |taken| {
        assert BlockBelow(taken[i], rows);
      }
    }
  }

  /** A step without interference hands out at most one block, at UIDNEXT. */
  lemma QuietBlock(s: State, op: Op)
    requires RowsBounded(s.catalog.uids) && !Interferes(s, op) && Step(s, op).taken != s.taken
    ensures var t := Step(s, op);
            && |t.taken| == |s.taken| + 1 && t.taken == s.taken + [t.taken[|s.taken|]]
            && var b := t.taken[|s.taken|];
            && b.key in s.catalog.uids && s.catalog.uids[b.key] == UidRow(b.validity, b.first)
            && t.catalog.uids == s.catalog.uids[b.key := UidRow(b.validity, b.first + b.count)]
            && 1 <= b.first && 1 <= b.count && b.first + b.count <= UINT64_MAX
  {
    hide ResolveAll, CheckDest, CheckSource, InsertItems, Tombstone, MinDate;
    assert op.Submit? || op.OtherWriter?;
  }

  lemma SameBlocks(s: State, op: Op)
    requires AllBelow(s) && Step(s, op).taken == s.taken
    ensures AllBelow(Step(s, op))
  {
    hide ResolveAll, CheckDest, CheckSource, InsertItems, Tombstone, MinDate, AllDisjoint;
    var t := Step(s, op);
    forall i | 0 <= i < |t.taken| ensures BlockBelow(t.taken[i], t.catalog.uids) {
      assert BlockBelow(s.taken[i], s.catalog.uids);
    }
  }

  lemma QuietStepKeepsAllBelow(s: State, op: Op)
    requires AllBelow(s) && !Interferes(s, op)
    ensures AllBelow(Step(s, op))
  {
    hide ResolveAll, CheckDest, CheckSource, InsertItems, Tombstone, MinDate, AllDisjoint, BlockBelow;
    var t := Step(s, op);
    if t.taken != s.taken {
      QuietBlock(s, op);
      var b := t.taken[|s.taken|];
      RowRisen(s.taken, s.catalog.uids, b);
    } else {
      SameBlocks(s, op);
    }
  }

  lemma InterferenceOverlaps(s: State, op: Op)
    requires Interferes(s, op)
    ensures !AllDisjoint(Step(s, op).taken)
  {
    hide ResolveAll, CheckDest, CheckSource;
    var t := Step(s, op);
    var m := |s.taken|;
    assert Overlap(t.taken[m], t.taken[m + 1]);
  }

  lemma TakenGrows(s: State, op: Op)
    ensures s.taken <= Step(s, op).taken
  {
    hide ResolveAll, CheckDest, CheckSource, InsertItems, Tombstone, MinDate;
  }

  lemma {:induction false} RunTakenGrows(s: State, ops: seq<Op>)
    ensures s.taken <= Run(s, ops).taken
    decreases |ops|
  {
    hide Step;
    if ops != [] {
      TakenGrows(s, ops[0]);
      RunTakenGrows(Step(s, ops[0]), ops[1..]);
    }
  }

  lemma {:induction false} RunDisjointIff(s: State, ops: seq<Op>)
    requires AllBelow(s)
    ensures AllDisjoint(Run(s, ops).taken) <==> !Interference(s, ops)
    decreases |ops|
  {
    hide Step, AllDisjoint;
    if ops != [] {
      var t := Step(s, ops[0]);
      if Interferes(s, ops[0]) {
        InterferenceOverlaps(s, ops[0]);
        RunTakenGrows(t, ops[1..]);
        OverlapPersists(t.taken, Run(t, ops[1..]).taken);
      } else {
        QuietStepKeepsAllBelow(s, ops[0]);
        RunDisjointIff(t, ops[1..]);
      }
    }
  }

  lemma OverlapPersists(a: seq<Taken>, b: seq<Taken>)
    requires a <= b && !AllDisjoint(a)
    ensures !AllDisjoint(b)
  {
    var i, k :| 0 <= i < k < |a| && Overlap(a[i], a[k]);
    assert b[i] == a[i] && b[k] == a[k];
  }

  /** No UID is ever handed out twice exactly when no other writer takes UIDs from the
      destination between a reservation's read of UIDNEXT and its write. */
  lemma UidsAreUniqueIff(ops: seq<Op>)
    ensures AllDisjoint(Run(Init(), ops).taken) <==> !Interference(Init(), ops)
  {
    RunDisjointIff(Init(), ops);
  }

  // ----- a run that hands out a UID twice -----

  /** Two open mailboxes, a message in the first, and a COPY of it to the second. */
  function CopyRequest(): Request
  {
    Request("u", "s", Ordinary, 1, "d", 1, [1])
  }

  function Opening(): seq<Op>
  {
    var open := Mailbox(true, true);
    [ChangeMailboxes(map[("u", "s") := open, ("u", "d") := open], map[], map[], []),
     NewUidState("u", "s", 1), NewUidState("u", "d", 1),
     Deliver(Membership("u", "s", 1, "m", 7, true, [], []))]
  }

  lemma OpeningState()
    ensures var c := Run(Init(), Opening()).catalog;
            && c.mailboxes == map[("u", "s") := Mailbox(true, true), ("u", "d") := Mailbox(true, true)]
            && c.views == map[] && c.uids == map[("u", "s") := UidRow(1, 1), ("u", "d") := UidRow(1, 1)]
            && c.memberships == [Membership("u", "s", 1, "m", 7, true, [], [])]
            && Run(Init(), Opening()).taken == []
  {
    var ops := Opening();
    assert ops[1..] == [ops[1], ops[2], ops[3]] && [ops[1], ops[2], ops[3]][1..] == [ops[2], ops[3]];
    assert [ops[2], ops[3]][1..] == [ops[3]] && [ops[3]][1..] == [];
    var s1 := Step(Init(), ops[0]);
    var s2 := Step(s1, ops[1]);
    var s3 := Step(s2, ops[2]);
    var s4 := Step(s3, ops[3]);
    assert MinDate([], "u", "m") == None;
    assert Run(s3, [ops[3]]) == Run(s4, []) == s4;
    assert Run(s2, [ops[2], ops[3]]) == s4;
    assert Run(s1, [ops[1], ops[2], ops[3]]) == s4;
  }

  lemma CopyResolves(s: State)
    requires s.catalog.mailboxes == map[("u", "s") := Mailbox(true, true), ("u", "d") := Mailbox(true, true)]
    requires s.catalog.views == map[] && s.catalog.uids == map[("u", "s") := UidRow(1, 1), ("u", "d") := UidRow(1, 1)]
    requires s.catalog.memberships == [Membership("u", "s", 1, "m", 7, true, [], [])]
    ensures Interferes(s, Submit(false, CopyRequest(), Env(true, 1, true)))
  {
    var c, r, m := s.catalog, CopyRequest(), s.catalog.memberships[0];
    assert ValidRequest(r);
    assert CheckDest(c, r).None? && CheckSource(c, false, r).None?;
    assert IsSource(m, r, 1) && FindSource(c.memberships, r, 1) == Some(m);
    assert c.memberships[..0] == [] && MinDate([], "u", "m") == None;
    assert MinDate(c.memberships, "u", "m") == Some(7);
    assert Resolve(c, r, 1).Ok?;
    assert r.uids[1..] == [] && ResolveAll(c, r, []) == Ok([]);
    assert ResolveAll(c, r, r.uids).Ok?;
    assert Reserve(s, r, 1, 1).Ok?;
  }

  /** Another writer takes UID 1 of the destination between SELECT and UPDATE, and the copy gets it too. */
  lemma UidsCanBeHandedOutTwice()
    ensures !AllDisjoint(Run(Init(), Opening() + [Submit(false, CopyRequest(), Env(true, 1, true))]).taken)
  {
    hide Step, Opening, CopyRequest, Run;
    var op := Submit(false, CopyRequest(), Env(true, 1, true));
    OpeningState();
    var s := Run(Init(), Opening());
    CopyResolves(s);
    InterferenceOverlaps(s, op);
    RunSnoc(Init(), Opening(), op);
  }

  lemma {:induction false} RunSnoc(s: State, ops: seq<Op>, op: Op)
    ensures Run(s, ops + [op]) == Step(Run(s, ops), op)
    decreases |ops|
  {
    hide Step;
    if ops == [] {
      assert ops + [op] == [op] && [op][1..] == [];
    } else {
      assert (ops + [op])[0] == ops[0] && (ops + [op])[1..] == ops[1..] + [op];
      RunSnoc(Step(s, ops[0]), ops[1..], op);
    }
  }
}
