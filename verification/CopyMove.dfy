/**
 * COPY and MOVE: mailbox checks, source resolution, reservation of destination UIDs and
 * one journal record, over a catalog that other writers share. taken is a history of every
 * block of UIDs handed out, by this service and by the other writers of a mailbox.
 */
module CopyMove {
  import opened Basics

  const UINT64_MAX := 0xFFFF_FFFF_FFFF_FFFF
  const MAX_UIDS := 65535

  datatype SourceKind = Ordinary | Virtual

  datatype Request = Request(account: string, source: string, sourceKind: SourceKind, sourceValidity: nat,
                             dest: string, destValidity: nat, uids: seq<nat>)

  datatype Error = NotFound | Exists | PermissionDenied | InvalidArgument | Failed

  // ----- request validation -----

  predicate StrictlyAscending(uids: seq<nat>)
  {
    forall i, k :: 0 <= i < k < |uids| ==> uids[i] < uids[k]
  }

  predicate ValidUids(uids: seq<nat>)
  {
    0 < |uids| <= MAX_UIDS && (forall i :: 0 <= i < |uids| ==> uids[i] > 0) && StrictlyAscending(uids)
  }

  predicate ValidRequest(r: Request)
  {
    PlainText(r.account) && PlainText(r.source) && PlainText(r.dest) &&
    r.sourceValidity > 0 && r.destValidity > 0 && ValidUids(r.uids)
  }

  method ValidateSourceUids(uids: seq<nat>) returns (ok: bool)
    ensures ok <==> ValidUids(uids)
  {
    if |uids| == 0 || |uids| > MAX_UIDS {
      return false;
    }
    var i := 0;
    while i < |uids|
      invariant i <= |uids|
      invariant forall k :: 0 <= k < i ==> uids[k] > 0
      invariant StrictlyAscending(uids[..i])
    {
      if uids[i] == 0 {
        return false;
      }
      if i > 0 && uids[i] <= uids[i - 1] {
        return false;
      }
      i := i + 1;
    }
    assert uids[..i] == uids;
    return true;
  }

  // ----- the catalog -----

  datatype Mailbox = Mailbox(visible: bool, selectable: bool)

  datatype UidRow = UidRow(validity: nat, next: nat)

  datatype Membership = Membership(account: string, mailbox: string, uid: nat, message: string, date: nat,
                                   visible: bool, flags: seq<string>, keywords: seq<string>)

  datatype ViewMembership = ViewMembership(account: string, view: string, uid: nat, message: string, visible: bool)

  /** Rows are keyed by account and mailbox or view. */
  datatype Catalog = Catalog(mailboxes: map<(string, string), Mailbox>, views: map<(string, string), Mailbox>,
                             uids: map<(string, string), UidRow>, viewUids: map<(string, string), UidRow>,
                             memberships: seq<Membership>, viewMemberships: seq<ViewMembership>)

  function CheckRow(rows: map<(string, string), UidRow>, boxes: map<(string, string), Mailbox>,
                    key: (string, string), validity: nat): Option<Error>
  {
    if key !in rows || key !in boxes || !boxes[key].visible || !boxes[key].selectable then Some(NotFound)
    else if rows[key].validity != validity then Some(Exists)
    else None
  }

  predicate VisibleView(c: Catalog, key: (string, string))
  {
    key in c.views && c.views[key].visible
  }

  function CheckDest(c: Catalog, r: Request): Option<Error>
  {
    if VisibleView(c, (r.account, r.dest)) then Some(PermissionDenied)
    else CheckRow(c.uids, c.mailboxes, (r.account, r.dest), r.destValidity)
  }

  function CheckSource(c: Catalog, isMove: bool, r: Request): Option<Error>
  {
    if isMove && r.sourceKind.Virtual? then Some(PermissionDenied)
    else if r.sourceKind.Ordinary? then CheckRow(c.uids, c.mailboxes, (r.account, r.source), r.sourceValidity)
    else if !VisibleView(c, (r.account, r.source)) then Some(NotFound)
    else CheckRow(c.viewUids, c.views, (r.account, r.source), r.sourceValidity)
  }

  predicate IsSource(m: Membership, r: Request, uid: nat)
  {
    m.account == r.account && m.mailbox == r.source && m.uid == uid && m.visible
  }

  predicate IsViewSource(m: ViewMembership, r: Request, uid: nat)
  {
    m.account == r.account && m.view == r.source && m.uid == uid && m.visible
  }

  function FindSource(ms: seq<Membership>, r: Request, uid: nat): (res: Option<Membership>)
    ensures res.Some? ==> res.value in ms && IsSource(res.value, r, uid)
    ensures res.None? ==> forall m :: m in ms ==> !IsSource(m, r, uid)
  {
    if ms == [] then None
    else if IsSource(ms[0], r, uid) then Some(ms[0])
    else FindSource(ms[1..], r, uid)
  }

  function FindViewSource(ms: seq<ViewMembership>, r: Request, uid: nat): (res: Option<ViewMembership>)
    ensures res.Some? ==> res.value in ms && IsViewSource(res.value, r, uid)
    ensures res.None? ==> forall m :: m in ms ==> !IsViewSource(m, r, uid)
  {
    if ms == [] then None
    else if IsViewSource(ms[0], r, uid) then Some(ms[0])
    else FindViewSource(ms[1..], r, uid)
  }

  /** MIN over every membership of the message, visible or not. */
  function MinDate(ms: seq<Membership>, account: string, message: string): Option<nat>
  {
    if ms == [] then None
    else
      var rest := MinDate(ms[..|ms| - 1], account, message);
      var m := ms[|ms| - 1];
      if m.account != account || m.message != message then rest
      else if rest.None? || m.date < rest.value then Some(m.date)
      else rest
  }

  datatype Resolved = Resolved(message: string, date: nat, flags: seq<string>, keywords: seq<string>)

  function Resolve(c: Catalog, r: Request, uid: nat): Result<Resolved, Error>
  {
    if r.sourceKind.Ordinary? then
      var m := FindSource(c.memberships, r, uid);
      if m.None? then Err(NotFound)
      else
        var date := MinDate(c.memberships, r.account, m.value.message);
        if date.None? then Err(NotFound)
        else Ok(Resolved(m.value.message, date.value, m.value.flags, m.value.keywords))
    else
      var m := FindViewSource(c.viewMemberships, r, uid);
      if m.None? then Err(NotFound)
      else
        var date := MinDate(c.memberships, r.account, m.value.message);
        if date.None? then Err(NotFound) else Ok(Resolved(m.value.message, date.value, [], []))
  }

  function ResolveAll(c: Catalog, r: Request, uids: seq<nat>): (res: Result<seq<Resolved>, Error>)
    ensures res.Ok? ==> |res.value| == |uids|
    ensures res.Ok? ==> forall i :: 0 <= i < |uids| ==> Resolve(c, r, uids[i]) == Ok(res.value[i])
    ensures res.Err? ==> exists i :: 0 <= i < |uids| && Resolve(c, r, uids[i]).Err?
  {
    if uids == [] then Ok([])
    else
      var head := Resolve(c, r, uids[0]);
      if head.Err? then Err(head.error)
      else
        var tail := ResolveAll(c, r, uids[1..]);
        if tail.Err? then
          assert forall i :: 0 <= i < |uids[1..]| ==> uids[1..][i] == uids[i + 1];
          Err(tail.error)
        else Ok([head.value] + tail.value)
  }

  // ----- records, UID blocks and the whole request -----

  datatype Item = Item(srcUid: nat, dstUid: nat, resolved: Resolved)

  datatype Record = Record(isMove: bool, request: Request, items: seq<Item>)

  /** count UIDs from first on, of one mailbox under one UIDVALIDITY. */
  datatype Taken = Taken(key: (string, string), validity: nat, first: nat, count: nat, copied: bool)

  datatype State = State(catalog: Catalog, journal: seq<Record>, applied: set<nat>, taken: seq<Taken>)

  /** between: UIDs another writer takes from the mailbox after this request has read
      UIDNEXT and before it writes it back, which are two separate statements. */
  datatype Env = Env(caughtUp: bool, between: nat, appends: bool)

  function Reserve(s: State, r: Request, n: nat, between: nat): Result<(State, nat), Error>
  {
    var key := (r.account, r.dest);
    if key !in s.catalog.uids || s.catalog.uids[key].validity != r.destValidity then Err(NotFound)
    else
      var next := s.catalog.uids[key].next;
      if next == 0 then Err(Failed)
      else if n > UINT64_MAX - next then Err(InvalidArgument)
      else
        Ok((s.(catalog := s.catalog.(uids := s.catalog.uids[key := UidRow(r.destValidity, next + n)]),
               taken := s.taken +
                        (if between == 0 then [] else [Taken(key, r.destValidity, next, between, false)]) +
                        [Taken(key, r.destValidity, next, n, true)]),
            next))
  }

  function Items(r: Request, resolved: seq<Resolved>, first: nat): seq<Item>
    requires |resolved| == |r.uids|
  {
    seq(|r.uids|, i requires 0 <= i < |r.uids| => Item(r.uids[i], first + i, resolved[i]))
  }

  function CopyMoveStep(s: State, isMove: bool, r: Request, env: Env): (State, Result<Record, Error>)
  {
    if !ValidRequest(r) then (s, Err(InvalidArgument))
    else if !env.caughtUp then (s, Err(Failed))
    else if CheckDest(s.catalog, r).Some? then (s, Err(CheckDest(s.catalog, r).value))
    else if CheckSource(s.catalog, isMove, r).Some? then (s, Err(CheckSource(s.catalog, isMove, r).value))
    else
      var resolved := ResolveAll(s.catalog, r, r.uids);
      if resolved.Err? then (s, Err(resolved.error))
      else
        var reserved := Reserve(s, r, |r.uids|, env.between);
        if reserved.Err? then (s, Err(reserved.error))
        else
          var (s', first) := reserved.value;
          var rec := Record(isMove, r, Items(r, resolved.value, first));
          if env.appends then (s'.(journal := s'.journal + [rec]), Ok(rec)) else (s', Err(Failed))
  }

  // ----- the other operations on the catalog -----

  function InsertItems(ms: seq<Membership>, rec: Record, items: seq<Item>): seq<Membership>
    decreases |items|
  {
    if items == [] then ms
    else
      var x := items[0];
      InsertItems(ms + [Membership(rec.request.account, rec.request.dest, x.dstUid, x.resolved.message, x.resolved.date,
                              true, x.resolved.flags, x.resolved.keywords)], rec, items[1..])
  }

  /** A MOVE hides the memberships it moved. */
  function Tombstone(ms: seq<Membership>, rec: Record): (r: seq<Membership>)
    ensures |r| == |ms| && forall i :: 0 <= i < |ms| ==> r[i] == ms[i] || r[i] == ms[i].(visible := false)
  {
    seq(|ms|, i requires 0 <= i < |ms| =>
      if rec.isMove && ms[i].account == rec.request.account && ms[i].mailbox == rec.request.source &&
         ms[i].uid in rec.request.uids
      then ms[i].(visible := false) else ms[i])
  }

  datatype Op =
    | Submit(isMove: bool, request: Request, env: Env)
    | OtherWriter(account: string, mailbox: string, count: nat)
    | Deliver(membership: Membership)
    | Apply(index: nat)
    | Expunge(index: nat)
    | ChangeMailboxes(mailboxes: map<(string, string), Mailbox>, views: map<(string, string), Mailbox>,
                      viewUids: map<(string, string), UidRow>, viewMemberships: seq<ViewMembership>)
    | NewUidState(account: string, mailbox: string, validity: nat)

  function Step(s: State, op: Op): State
  {
    match op
    case Submit(isMove, request, env) => CopyMoveStep(s, isMove, request, env).0
    case OtherWriter(account, mailbox, count) =>
      var key := (account, mailbox);
      if key !in s.catalog.uids || count == 0 || count > UINT64_MAX - s.catalog.uids[key].next then s
      else
        var row := s.catalog.uids[key];
        s.(catalog := s.catalog.(uids := s.catalog.uids[key := row.(next := row.next + count)]),
           taken := s.taken + [Taken(key, row.validity, row.next, count, false)])
    case Deliver(m) =>
      // a delivered or appended message is new to its account
      if MinDate(s.catalog.memberships, m.account, m.message).Some? then s
      else s.(catalog := s.catalog.(memberships := s.catalog.memberships + [m]))
    case Apply(k) =>
      if k >= |s.journal| || k in s.applied then s
      else
        var rec := s.journal[k];
        s.(catalog := s.catalog.(memberships := Tombstone(InsertItems(s.catalog.memberships, rec, rec.items), rec)),
           applied := s.applied + {k})
    case Expunge(i) =>
      if i >= |s.catalog.memberships| then s
      else
        var ms := s.catalog.memberships;
        s.(catalog := s.catalog.(memberships := ms[i := ms[i].(visible := false)]))
    case ChangeMailboxes(mailboxes, views, viewUids, viewMemberships) =>
      s.(catalog := s.catalog.(mailboxes := mailboxes, views := views, viewUids := viewUids,
                               viewMemberships := viewMemberships))
    case NewUidState(account, mailbox, validity) =>
      // a fresh mailbox, or one recreated under a greater UIDVALIDITY (RFC 9051, section 2.3.1.1)
      var key := (account, mailbox);
      if key in s.catalog.uids && validity <= s.catalog.uids[key].validity then s
      else s.(catalog := s.catalog.(uids := s.catalog.uids[key := UidRow(validity, 1)]))
  }

  function Init(): State
  {
    State(Catalog(map[], map[], map[], map[], [], []), [], {}, [])
  }

  function Run(s: State, ops: seq<Op>): State
    decreases |ops|
  {
    if ops == [] then s else Run(Step(s, ops[0]), ops[1..])
  }

  // ----- the service -----

  /** The result of a whole list, its first sources resolved. */
  function After(done: seq<Resolved>, rest: Result<seq<Resolved>, Error>): Result<seq<Resolved>, Error>
  {
    if rest.Err? then rest else Ok(done + rest.value)
  }

  lemma ResolveNext(c: Catalog, r: Request, uids: seq<nat>, done: seq<Resolved>)
    requires uids != []
    ensures After(done, ResolveAll(c, r, uids)) ==
            match Resolve(c, r, uids[0])
            case Err(e) => Err(e)
            case Ok(one) => After(done + [one], ResolveAll(c, r, uids[1..]))
  {
    hide Resolve;
    var one, rest := Resolve(c, r, uids[0]), ResolveAll(c, r, uids[1..]);
    if one.Ok? && rest.Ok? {
      assert done + ([one.value] + rest.value) == done + [one.value] + rest.value;
    }
  }

  lemma ResolveEnds(c: Catalog, r: Request, res: Result<seq<Resolved>, Error>)
    ensures After([], res) == res
    ensures res.Ok? ==> After(res.value, ResolveAll(c, r, [])) == res
  {
    if res.Ok? {
      assert [] + res.value == res.value && res.value + [] == res.value;
    }
  }

  class CopyMoveJournal {
    var catalog: Catalog
    var journal: seq<Record>
    ghost var applied: set<nat>
    ghost var taken: seq<Taken>

    ghost function View(): State
      reads this
    {
      State(catalog, journal, applied, taken)
    }

    /** SELECT uidnext, whatever other writers do meanwhile, and the UPDATE. */
    method ReserveDestinationUids(r: Request, n: nat, between: nat) returns (res: Result<nat, Error>)
      modifies this`catalog, this`taken
      ensures match Reserve(old(View()), r, n, between)
              case Err(e) => res == Err(e) && View() == old(View())
              case Ok((t, first)) => res == Ok(first) && View() == t
    {
      var key := (r.account, r.dest);
      if key !in catalog.uids || catalog.uids[key].validity != r.destValidity {
        return Err(NotFound);
      }
      var uidnext := catalog.uids[key].next;
      if uidnext == 0 {
        return Err(Failed);
      }
      if n > UINT64_MAX - uidnext {
        return Err(InvalidArgument);
      }
      var reservedEnd := uidnext + n;
      taken := taken + (if between == 0 then [] else [Taken(key, r.destValidity, uidnext, between, false)]) +
               [Taken(key, r.destValidity, uidnext, n, true)];
      catalog := catalog.(uids := catalog.uids[key := UidRow(r.destValidity, reservedEnd)]);
      return Ok(uidnext);
    }

    method ResolveSources(r: Request) returns (res: Result<seq<Resolved>, Error>)
      ensures res == ResolveAll(catalog, r, r.uids)
    {
      hide Resolve, ResolveAll, After;
      var resolved: seq<Resolved> := [];
      var i := 0;
      ResolveEnds(catalog, r, ResolveAll(catalog, r, r.uids));
      assert r.uids[0..] == r.uids;
      while i < |r.uids|
        invariant i <= |r.uids|
        invariant ResolveAll(catalog, r, r.uids) == After(resolved, ResolveAll(catalog, r, r.uids[i..]))
      {
        var one := Resolve(catalog, r, r.uids[i]);
        ResolveNext(catalog, r, r.uids[i..], resolved);
        assert r.uids[i..][1..] == r.uids[i + 1..];
        if one.Err? {
          return Err(one.error);
        }
        resolved := resolved + [one.value];
        i := i + 1;
      }
      assert r.uids[i..] == [];
      ResolveEnds(catalog, r, Ok(resolved));
      return Ok(resolved);
    }

    method BuildItems(r: Request, resolved: seq<Resolved>, first: nat) returns (items: seq<Item>)
      requires |resolved| == |r.uids|
      ensures items == Items(r, resolved, first)
    {
      items := [];
      var i := 0;
      while i < |r.uids|
        invariant i <= |r.uids|
        invariant items == Items(r, resolved, first)[..i]
      {
        items := items + [Item(r.uids[i], first + i, resolved[i])];
        i := i + 1;
      }
    }

    method CopyMoveMemberships(isMove: bool, r: Request, env: Env) returns (res: Result<Record, Error>)
      requires ValidRequest(r)
      modifies this`catalog, this`journal, this`taken
      ensures (View(), res) == CopyMoveStep(old(View()), isMove, r, env)
    {
      hide ResolveAll, Reserve, Items, CheckDest, CheckSource;
      if !env.caughtUp {
        return Err(Failed);
      }
      var dest := CheckDest(catalog, r);
      if dest.Some? {
        return Err(dest.value);
      }
      var source := CheckSource(catalog, isMove, r);
      if source.Some? {
        return Err(source.value);
      }
      var resolved := ResolveSources(r);
      if resolved.Err? {
        return Err(resolved.error);
      }
      var reserved := ReserveDestinationUids(r, |r.uids|, env.between);
      if reserved.Err? {
        return Err(reserved.error);
      }
      var items := BuildItems(r, resolved.value, reserved.value);
      if !env.appends {
        return Err(Failed);
      }
      var rec := Record(isMove, r, items);
      journal := journal + [rec];
      return Ok(rec);
    }
  }
}
