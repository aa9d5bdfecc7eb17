/**
 * LIST and SELECT over one account's part of the catalog: ordinary mailboxes, derived views
 * that an ordinary mailbox of the same name shadows, and their UID state.
 */
module MailboxCatalog {
  import opened Basics

  const UINT32_MAX := 0xFFFF_FFFF

  datatype Kind = Ordinary | Virtual

  datatype Box = Box(name: string, selectable: bool, visible: bool)

  datatype UidState = UidState(validity: nat, next: nat, messages: nat)

  /** Tables keyed by mailbox or view id. */
  datatype Catalog = Catalog(mailboxes: map<string, Box>, views: map<string, Box>,
                             mailboxUids: map<string, UidState>, viewUids: map<string, UidState>)

  datatype Row = Row(kind: Kind, id: string, name: string, selectable: bool)

  // ----- the visible rows -----

  predicate VisibleMailbox(c: Catalog, id: string)
  {
    id in c.mailboxes && c.mailboxes[id].visible
  }

  /** Does a visible ordinary mailbox carry this name? */
  ghost predicate Shadowed(c: Catalog, name: string)
  {
    exists id :: VisibleMailbox(c, id) && c.mailboxes[id].name == name
  }

  ghost function VisibleRows(c: Catalog): set<Row>
  {
    (set id | id in c.mailboxes && c.mailboxes[id].visible ::
      Row(Ordinary, id, c.mailboxes[id].name, c.mailboxes[id].selectable)) +
    (set id | id in c.views && c.views[id].visible && !Shadowed(c, c.views[id].name) ::
      Row(Virtual, id, c.views[id].name, c.views[id].selectable))
  }

  /** substr(name, 1, length(parent) + 1) = parent || '/' */
  predicate Below(name: string, parent: string)
  {
    parent + "/" <= name
  }

  predicate InPrefix(name: string, prefix: string)
  {
    prefix == "" || name == prefix || Below(name, prefix)
  }

  ghost predicate HasChildren(c: Catalog, name: string)
  {
    exists r :: r in VisibleRows(c) && Below(r.name, name)
  }

  // ----- ORDER BY imap_name, sort_kind, stable_id -----

  predicate KeyLe(a: Row, b: Row)
  {
    if a.name != b.name then LexLe(a.name, b.name)
    else if a.kind != b.kind then a.kind.Ordinary?
    else LexLe(a.id, b.id)
  }

  predicate SameKey(a: Row, b: Row)
  {
    a.name == b.name && a.kind == b.kind && a.id == b.id
  }

  lemma KeyTotal(a: Row, b: Row)
    ensures KeyLe(a, b) || KeyLe(b, a)
  {
    LexTotal(a.name, b.name);
    LexTotal(a.id, b.id);
  }

  lemma KeyAntisymmetric(a: Row, b: Row)
    requires KeyLe(a, b) && KeyLe(b, a)
    ensures SameKey(a, b)
  {
    if a.name != b.name {
      LexAntisymmetric(a.name, b.name);
    } else if a.kind == b.kind {
      LexAntisymmetric(a.id, b.id);
    }
  }

  lemma KeyTransitive(a: Row, b: Row, c: Row)
    requires KeyLe(a, b) && KeyLe(b, c)
    ensures KeyLe(a, c)
  {
    if a.name == b.name || b.name == c.name {
      if a.name == c.name && a.kind == b.kind == c.kind {
        LexTransitive(a.id, b.id, c.id);
      }
    } else {
      LexTransitive(a.name, b.name, c.name);
      if a.name == c.name {
        LexAntisymmetric(a.name, b.name);
      }
    }
  }

  predicate Ordered(s: seq<Row>)
  {
    forall i, k :: 0 <= i < k < |s| ==> KeyLe(s[i], s[k]) && s[i] != s[k]
  }

  function Place(x: Row, s: seq<Row>): seq<Row>
  {
    if s == [] || KeyLe(x, s[0]) then [x] + s else [s[0]] + Place(x, s[1..])
  }

  lemma {:induction false} PlaceOrders(x: Row, s: seq<Row>)
    requires Ordered(s) && x !in s
    ensures Ordered(Place(x, s)) && SetOf(Place(x, s)) == SetOf(s) + {x}
  {
    hide KeyLe;
    if s != [] {
      assert s == [s[0]] + s[1..];
      if KeyLe(x, s[0]) {
        forall k | 0 <= k < |s| ensures KeyLe(x, s[k]) && x != s[k] {
          if k > 0 {
            KeyTransitive(x, s[0], s[k]);
          }
        }
      } else {
        KeyTotal(x, s[0]);
        PlaceOrders(x, s[1..]);
        var t := Place(x, s[1..]);
        forall k | 0 <= k < |t| ensures KeyLe(s[0], t[k]) && s[0] != t[k] {
          assert t[k] in SetOf(t);
        }
      }
    }
  }

  /** The rows in key order. */
  ghost function InOrder(rows: set<Row>): (r: seq<Row>)
    ensures Ordered(r) && SetOf(r) == rows
  {
    if rows == {} then []
    else
      var x :| x in rows;
      var rest := InOrder(rows - {x});
      assert x !in SetOf(rest);
      PlaceOrders(x, rest);
      Place(x, rest)
  }

  predicate DistinctKeys(rows: set<Row>)
  {
    forall a, b :: a in rows && b in rows && SameKey(a, b) ==> a == b
  }

  /** Where keys are distinct, the order is the only one. */
  lemma {:induction false} OrderIsUnique(a: seq<Row>, b: seq<Row>)
    requires Ordered(a) && Ordered(b) && SetOf(a) == SetOf(b) && DistinctKeys(SetOf(a))
    ensures a == b
  {
    hide KeyLe, SameKey;
    EmptyTogether(a, b);
    if a != [] {
      SameHead(a, b);
      assert SetOf(a[1..]) == SetOf(a) - {a[0]} by {
        OrderedTail(a);
      }
      assert SetOf(b[1..]) == SetOf(b) - {b[0]} by {
        OrderedTail(b);
      }
      OrderIsUnique(a[1..], b[1..]);
      assert a == [a[0]] + a[1..] && b == [b[0]] + b[1..];
    }
  }

  lemma EmptyTogether(a: seq<Row>, b: seq<Row>)
    requires SetOf(a) == SetOf(b)
    ensures a == [] <==> b == []
  {
    assert a != [] ==> a[0] in SetOf(a);
    assert b != [] ==> b[0] in SetOf(b);
  }

  lemma SameHead(a: seq<Row>, b: seq<Row>)
    requires Ordered(a) && Ordered(b) && SetOf(a) == SetOf(b) && DistinctKeys(SetOf(a)) && a != [] && b != []
    ensures a[0] == b[0]
  {
    hide KeyLe, SameKey;
    assert b[0] in SetOf(a) by {
      assert b[0] in SetOf(b);
    }
    assert a[0] in SetOf(b) by {
      assert a[0] in SetOf(a);
    }
    var i :| 0 <= i < |a| && a[i] == b[0];
    var k :| 0 <= k < |b| && b[k] == a[0];
    if i > 0 && k > 0 {
      KeyAntisymmetric(a[0], b[0]);
    }
  }

  lemma OrderedTail(a: seq<Row>)
    requires Ordered(a) && a != []
    ensures SetOf(a[1..]) == SetOf(a) - {a[0]}
  {
    hide KeyLe;
    assert a == [a[0]] + a[1..];
  }

  lemma VisibleKeysDistinct(c: Catalog)
    ensures DistinctKeys(VisibleRows(c))
  {
  }

  // ----- LIST -----

  datatype Entry = Entry(row: Row, hasChildren: bool)

  datatype Error = NotFound | Exists | InvalidData | InvalidArgument

  ghost function ListedRows(c: Catalog, prefix: string): set<Row>
  {
    set r | r in VisibleRows(c) && InPrefix(r.name, prefix)
  }

  ghost function EntryOf(c: Catalog, r: Row): Entry
  {
    Entry(r, HasChildren(c, r.name))
  }

  ghost function EntriesOf(c: Catalog, rows: seq<Row>): (r: seq<Entry>)
    ensures |r| == |rows| && forall i :: 0 <= i < |rows| ==> r[i] == EntryOf(c, rows[i])
  {
    seq(|rows|, i requires 0 <= i < |rows| => EntryOf(c, rows[i]))
  }

  /** What the query returns. */
  ghost function Query(c: Catalog, prefix: string): seq<Entry>
  {
    EntriesOf(c, InOrder(ListedRows(c, prefix)))
  }

  predicate RowText(r: Row)
  {
    PlainText(r.id) && PlainText(r.name)
  }

  ghost function List(c: Catalog, prefix: string): Result<seq<Entry>, Error>
  {
    if forall r :: r in ListedRows(c, prefix) ==> RowText(r) then Ok(Query(c, prefix)) else Err(InvalidArgument)
  }

  function Restrict(rows: seq<Row>, prefix: string): seq<Row>
  {
    if rows == [] then []
    else (if InPrefix(rows[0].name, prefix) then [rows[0]] else []) + Restrict(rows[1..], prefix)
  }

  function RestrictEntries(es: seq<Entry>, prefix: string): seq<Entry>
  {
    if es == [] then []
    else (if InPrefix(es[0].row.name, prefix) then [es[0]] else []) + RestrictEntries(es[1..], prefix)
  }

  lemma {:induction false} RestrictMembers(rows: seq<Row>, prefix: string)
    ensures forall r :: r in Restrict(rows, prefix) <==> r in rows && InPrefix(r.name, prefix)
  {
    hide InPrefix;
    if rows != [] {
      RestrictMembers(rows[1..], prefix);
      assert rows == [rows[0]] + rows[1..];
    }
  }

  lemma {:induction false} RestrictOrdered(rows: seq<Row>, prefix: string)
    requires Ordered(rows)
    ensures Ordered(Restrict(rows, prefix))
  {
    hide InPrefix, KeyLe;
    if rows != [] {
      RestrictOrdered(rows[1..], prefix);
      RestrictMembers(rows[1..], prefix);
      var t := Restrict(rows[1..], prefix);
      forall k | 0 <= k < |t| ensures KeyLe(rows[0], t[k]) && rows[0] != t[k] {
        assert t[k] in rows[1..];
      }
    }
  }

  lemma {:induction false} RestrictCommutes(c: Catalog, rows: seq<Row>, prefix: string)
    ensures EntriesOf(c, Restrict(rows, prefix)) == RestrictEntries(EntriesOf(c, rows), prefix)
  {
    hide InPrefix, HasChildren;
    if rows != [] {
      RestrictCommutes(c, rows[1..], prefix);
      assert EntriesOf(c, rows)[1..] == EntriesOf(c, rows[1..]);
      var head := if InPrefix(rows[0].name, prefix) then [rows[0]] else [];
      assert EntriesOf(c, head + Restrict(rows[1..], prefix)) ==
             EntriesOf(c, head) + EntriesOf(c, Restrict(rows[1..], prefix));
    }
  }

  lemma QueryIsRestriction(c: Catalog, prefix: string)
    ensures Query(c, prefix) == RestrictEntries(Query(c, ""), prefix)
  {
    hide InPrefix, VisibleRows, Ordered, Restrict, RestrictEntries, EntriesOf, InOrder;
    var all := InOrder(ListedRows(c, ""));
    EmptyPrefix(c);
    RestrictOrdered(all, prefix);
    RestrictMembers(all, prefix);
    var part := Restrict(all, prefix);
    assert SetOf(part) == ListedRows(c, prefix) by {
      forall r ensures r in SetOf(part) <==> r in ListedRows(c, prefix) {
        assert r in all <==> r in SetOf(all);
      }
    }
    VisibleKeysDistinct(c);
    OrderIsUnique(InOrder(ListedRows(c, prefix)), part);
    RestrictCommutes(c, all, prefix);
  }

  lemma EmptyPrefix(c: Catalog)
    ensures ListedRows(c, "") == VisibleRows(c)
  {
  }

  /** LIST with a prefix is the ordered restriction of LIST without one to the prefix and its
      descendants, with the same child flags, and it works whenever the full LIST does. */
  lemma ListIsRestriction(c: Catalog, prefix: string)
    requires List(c, "").Ok?
    ensures List(c, prefix) == Ok(RestrictEntries(List(c, "").value, prefix))
  {
    hide Query, RowText, VisibleRows, InPrefix;
    QueryIsRestriction(c, prefix);
    EmptyPrefix(c);
  }

  lemma QueryMembers(c: Catalog, prefix: string, r: Row)
    ensures EntryOf(c, r) in Query(c, prefix) <==> r in ListedRows(c, prefix)
  {
    hide ListedRows, HasChildren, InOrder, VisibleRows;
    var rows := InOrder(ListedRows(c, prefix));
    assert r in rows <==> r in SetOf(rows);
    if r in rows {
      var k :| 0 <= k < |rows| && rows[k] == r;
      assert Query(c, prefix)[k] == EntryOf(c, r);
    }
  }

  /** A listed entry is flagged exactly when a descendant of it is in the same LIST. */
  lemma ChildFlagsAreWitnessed(c: Catalog, prefix: string, e: Entry)
    requires e in Query(c, prefix)
    ensures e.hasChildren <==> exists d :: d in Query(c, prefix) && Below(d.row.name, e.row.name)
  {
    hide Query, VisibleRows, Below;
    assert exists r :: r in ListedRows(c, prefix) && e == EntryOf(c, r) by {
      QueryRows(c, prefix, e);
    }
    if e.hasChildren {
      var r :| r in VisibleRows(c) && Below(r.name, e.row.name);
      BelowIsTransitive(r.name, e.row.name, prefix);
      QueryMembers(c, prefix, r);
      assert EntryOf(c, r).row == r;
    }
    if d :| d in Query(c, prefix) && Below(d.row.name, e.row.name) {
      QueryRows(c, prefix, d);
    }
  }

  lemma QueryRows(c: Catalog, prefix: string, e: Entry)
    requires e in Query(c, prefix)
    ensures e.row in ListedRows(c, prefix) && e == EntryOf(c, e.row)
  {
    hide ListedRows, HasChildren, InOrder;
    var rows := InOrder(ListedRows(c, prefix));
    var k :| 0 <= k < |rows| && Query(c, prefix)[k] == e;
    assert rows[k] in SetOf(rows);
  }

  lemma BelowIsTransitive(name: string, parent: string, prefix: string)
    requires Below(name, parent) && InPrefix(parent, prefix)
    ensures InPrefix(name, prefix)
  {
    if prefix != "" && parent != prefix {
      assert prefix + "/" <= parent <= parent + "/" <= name;
    }
  }

  /** A name is below another exactly when it is that name, the delimiter and something more. */
  lemma BelowIff(name: string, parent: string)
    ensures Below(name, parent) <==> exists rest: string :: name == parent + "/" + rest
  {
    if Below(name, parent) {
      var n := |parent| + 1;
      assert name == parent + "/" + name[n..];
    }
    if rest: string :| name == parent + "/" + rest {
      assert parent + "/" <= name;
    }
  }

  /** What is listed, said on the catalog: visible mailboxes, and visible views whose name no
      visible mailbox has, with the name asked for or below it. */
  ghost predicate Listable(c: Catalog, prefix: string, r: Row)
  {
    && (prefix == "" || r.name == prefix || exists rest: string :: r.name == prefix + "/" + rest)
    && if r.kind.Ordinary?
       then r.id in c.mailboxes && c.mailboxes[r.id] == Box(r.name, r.selectable, true)
       else r.id in c.views && c.views[r.id] == Box(r.name, r.selectable, true) &&
            forall id :: id in c.mailboxes && c.mailboxes[id].visible ==> c.mailboxes[id].name != r.name
  }

  /** LIST returns exactly those rows, each once, its names ascending byte by byte. */
  lemma ListIsExactly(c: Catalog, prefix: string, r: Row)
    ensures (exists e :: e in Query(c, prefix) && e.row == r) <==> Listable(c, prefix, r)
    ensures var es := Query(c, prefix);
            forall i, k :: 0 <= i < k < |es| ==> es[i].row != es[k].row && LexLe(es[i].row.name, es[k].row.name)
  {
    hide InOrder, HasChildren, LexLe;
    var rows := InOrder(ListedRows(c, prefix));
    BelowIff(r.name, prefix);
    ListedRowIff(c, prefix, r);
    var es := Query(c, prefix);
    if e :| e in es && e.row == r {
      QueryRows(c, prefix, e);
    }
    if Listable(c, prefix, r) {
      QueryMembers(c, prefix, r);
      assert EntryOf(c, r).row == r;
    }
    forall i, k | 0 <= i < k < |es| ensures es[i].row != es[k].row && LexLe(es[i].row.name, es[k].row.name) {
      assert KeyLe(rows[i], rows[k]);
      NameOrder(rows[i], rows[k]);
    }
  }

  lemma NameOrder(a: Row, b: Row)
    requires KeyLe(a, b)
    ensures LexLe(a.name, b.name)
  {
    LexTotal(a.name, a.name);
  }

  lemma ListedRowIff(c: Catalog, prefix: string, r: Row)
    ensures r in ListedRows(c, prefix) <==> Listable(c, prefix, r)
  {
    BelowIff(r.name, prefix);
    if r.kind.Virtual? && r.id in c.views && Shadowed(c, r.name) {
      var id :| VisibleMailbox(c, id) && c.mailboxes[id].name == r.name;
      assert id in c.mailboxes;
    }
    if r.kind.Virtual? && r.id in c.views && !Shadowed(c, r.name) {
      forall id | id in c.mailboxes && c.mailboxes[id].visible ensures c.mailboxes[id].name != r.name {
        assert VisibleMailbox(c, id);
      }
    }
  }

  /** The row loop: entries are validated and appended one by one. */
  method AppendListRows(ghost c: Catalog, ghost prefix: string, rows: seq<Entry>)
    returns (res: Result<seq<Entry>, Error>)
    requires rows == Query(c, prefix)
    ensures res == List(c, prefix)
  {
    hide PlainText, Query, ListedRows, EntryOf;
    TextsChecked(c, prefix);
    var entries: seq<Entry> := [];
    for i := 0 to |rows|
      invariant entries == rows[..i]
      invariant forall k :: 0 <= k < i ==> RowText(rows[k].row)
    {
      if !PlainText(rows[i].row.id) {
        return Err(InvalidArgument);
      }
      if !PlainText(rows[i].row.name) {
        return Err(InvalidArgument);
      }
      entries := entries + [rows[i]];
    }
    assert rows[..|rows|] == rows;
    return Ok(entries);
  }

  lemma TextsChecked(c: Catalog, prefix: string)
    ensures (forall r :: r in ListedRows(c, prefix) ==> RowText(r)) <==>
            (forall i :: 0 <= i < |Query(c, prefix)| ==> RowText(Query(c, prefix)[i].row))
  {
    hide PlainText, ListedRows, HasChildren, InOrder;
    var rows := InOrder(ListedRows(c, prefix));
    forall r | r in ListedRows(c, prefix)
      ensures exists i :: 0 <= i < |rows| && Query(c, prefix)[i].row == r
    {
      assert r in SetOf(rows);
      var i :| 0 <= i < |rows| && rows[i] == r;
      assert Query(c, prefix)[i].row == r;
    }
    forall i | 0 <= i < |rows| ensures Query(c, prefix)[i].row in ListedRows(c, prefix) {
      assert rows[i] in SetOf(rows);
    }
  }

  // ----- SELECT -----

  datatype Selector = ByName(name: string) | ById(id: string)

  datatype SelectRow = SelectRow(row: Row, uids: UidState)

  ghost predicate Matches(c: Catalog, sel: Selector, m: SelectRow)
  {
    var r := m.row;
    var boxes := if r.kind.Ordinary? then c.mailboxes else c.views;
    var uids := if r.kind.Ordinary? then c.mailboxUids else c.viewUids;
    && r.id in boxes && boxes[r.id].visible && r == Row(r.kind, r.id, boxes[r.id].name, boxes[r.id].selectable)
    && r.id in uids && m.uids == uids[r.id]
    && match sel
       case ByName(name) => r.name == name && (r.kind.Virtual? ==> !Shadowed(c, r.name))
       case ById(id) => r.id == id
  }

  /** The rows the database returns for a selector, in any order. */
  ghost predicate IsResult(c: Catalog, sel: Selector, rows: seq<SelectRow>)
  {
    Distinct(rows) && forall m :: m in rows <==> Matches(c, sel, m)
  }

  predicate Fits(u: UidState)
  {
    u.validity <= UINT32_MAX && u.next <= UINT32_MAX && u.messages <= UINT32_MAX
  }

  /** SELECT as a condition on the matching rows. */
  ghost function Select(c: Catalog, sel: Selector): Result<SelectRow, Error>
  {
    if exists m :: Matches(c, sel, m) && !Fits(m.uids) then Err(InvalidData)
    else if !exists m :: Matches(c, sel, m) then Err(NotFound)
    else
      var m :| Matches(c, sel, m);
      if exists n :: Matches(c, sel, n) && n != m then Err(Exists)
      else if !m.row.selectable then Err(Exists)
      else if !RowText(m.row) || m.uids.validity == 0 || m.uids.next == 0 then Err(InvalidArgument)
      else Ok(m)
  }

  /** Reads the rows, then decides; the order of the rows does not matter. */
  method SelectRows(ghost c: Catalog, ghost sel: Selector, rows: seq<SelectRow>)
    returns (res: Result<SelectRow, Error>)
    requires IsResult(c, sel, rows)
    ensures res == Select(c, sel)
  {
    hide Matches, PlainText;
    for i := 0 to |rows|
      invariant forall k :: 0 <= k < i ==> Fits(rows[k].uids)
    {
      assert rows[i] in rows;
      if rows[i].uids.validity > UINT32_MAX {
        return Err(InvalidData);
      }
      if rows[i].uids.next > UINT32_MAX {
        return Err(InvalidData);
      }
      if rows[i].uids.messages > UINT32_MAX {
        return Err(InvalidData);
      }
    }
    if |rows| == 0 {
      return Err(NotFound);
    }
    ghost var m := rows[0];
    assert m in rows;
    if |rows| > 1 {
      assert rows[1] in rows && rows[0] != rows[1];
      return Err(Exists);
    }
    assert forall n :: Matches(c, sel, n) ==> n == m;
    if !rows[0].row.selectable {
      return Err(Exists);
    }
    if !RowText(rows[0].row) || rows[0].uids.validity == 0 || rows[0].uids.next == 0 {
      return Err(InvalidArgument);
    }
    return Ok(rows[0]);
  }

  /** By name, a selector never matches rows of both kinds. */
  lemma NamesMatchOneKind(c: Catalog, name: string, a: SelectRow, b: SelectRow)
    requires Matches(c, ByName(name), a) && Matches(c, ByName(name), b)
    ensures a.row.kind == b.row.kind
  {
    if a.row.kind.Ordinary? {
      assert VisibleMailbox(c, a.row.id);
    }
    if b.row.kind.Ordinary? {
      assert VisibleMailbox(c, b.row.id);
    }
  }

  lemma MatchIsVisible(c: Catalog, sel: Selector, m: SelectRow)
    requires Matches(c, sel, m)
    ensures m.row in VisibleRows(c) <==> m.row.kind.Ordinary? || !Shadowed(c, m.row.name)
  {
    hide Shadowed;
  }

  lemma ListedIff(c: Catalog, r: Row)
    ensures EntryOf(c, r) in Query(c, "") <==> r in VisibleRows(c)
  {
    hide VisibleRows, Query, EntryOf;
    QueryMembers(c, "", r);
    EmptyPrefix(c);
  }

  /** Whatever SELECT by name opens is an entry of the full LIST, selectable and with that name. */
  lemma SelectedByNameIsListed(c: Catalog, name: string)
    requires Select(c, ByName(name)).Ok?
    ensures var r := Select(c, ByName(name)).value.row;
            EntryOf(c, r) in Query(c, "") && r.name == name && r.selectable
  {
    hide VisibleRows, Query, Fits, RowText, Shadowed;
    var m := Select(c, ByName(name)).value;
    MatchIsVisible(c, ByName(name), m);
    ListedIff(c, m.row);
  }

  /** Is there a visible mailbox with this id and UID state? */
  predicate IsMailbox(c: Catalog, id: string)
  {
    VisibleMailbox(c, id) && id in c.mailboxUids
  }

  /** What SELECT by id opens is listed exactly when the id is a mailbox's, or a view's whose
      name no visible mailbox carries. */
  lemma SelectedByIdIsListedIff(c: Catalog, id: string)
    requires Select(c, ById(id)).Ok?
    ensures var r := Select(c, ById(id)).value.row;
            && r.id == id && r.selectable
            && (!IsMailbox(c, id) ==> id in c.views)
            && (EntryOf(c, r) in Query(c, "") <==> IsMailbox(c, id) || !Shadowed(c, c.views[id].name))
  {
    hide VisibleRows, Query, Fits, RowText, Shadowed;
    var m := Select(c, ById(id)).value;
    MatchIsVisible(c, ById(id), m);
    ListedIff(c, m.row);
    if IsMailbox(c, id) {
      var box := SelectRow(Row(Ordinary, id, c.mailboxes[id].name, c.mailboxes[id].selectable), c.mailboxUids[id]);
      assert Matches(c, ById(id), box);
    }
  }

  /** The row of an id among the mailboxes, or among the views, if it is visible and has UID state. */
  function OpenById(c: Catalog, kind: Kind, id: string): Option<SelectRow>
  {
    var boxes := if kind.Ordinary? then c.mailboxes else c.views;
    var uids := if kind.Ordinary? then c.mailboxUids else c.viewUids;
    if id in boxes && boxes[id].visible && id in uids
    then Some(SelectRow(Row(kind, id, boxes[id].name, boxes[id].selectable), uids[id]))
    else None
  }

  predicate OutOfRange(m: Option<SelectRow>)
  {
    m.Some? && (m.value.uids.validity > UINT32_MAX || m.value.uids.next > UINT32_MAX || m.value.uids.messages > UINT32_MAX)
  }

  /** SELECT by id, case by case: a value beyond 32 bits, no such id, both a mailbox and a view,
      not selectable, unusable text or zero UID values, or the row itself. */
  lemma SelectByIdIs(c: Catalog, id: string)
    ensures var box, view := OpenById(c, Ordinary, id), OpenById(c, Virtual, id);
            Select(c, ById(id)) ==
            if OutOfRange(box) || OutOfRange(view) then Err(InvalidData)
            else if box.None? && view.None? then Err(NotFound)
            else if box.Some? && view.Some? then Err(Exists)
            else
              var m := if box.Some? then box.value else view.value;
              if !m.row.selectable then Err(Exists)
              else if !PlainText(m.row.id) || !PlainText(m.row.name) || m.uids.validity == 0 || m.uids.next == 0
              then Err(InvalidArgument)
              else Ok(m)
  {
    hide PlainText;
    var box, view := OpenById(c, Ordinary, id), OpenById(c, Virtual, id);
    forall m ensures Matches(c, ById(id), m) <==> box == Some(m) || view == Some(m) {
      assert m.row.kind.Ordinary? || m.row.kind.Virtual?;
    }
  }

  /** A shadowed view that SELECT by id still opens. */
  lemma ShadowedViewCanBeSelected()
    ensures var c := Catalog(map["m" := Box("A", true, true)], map["v" := Box("A", true, true)],
                             map["m" := UidState(1, 1, 0)], map["v" := UidState(1, 1, 0)]);
            var s := Select(c, ById("v"));
            s.Ok? && EntryOf(c, s.value.row) !in Query(c, "")
  {
    hide Query, VisibleRows;
    var c := Catalog(map["m" := Box("A", true, true)], map["v" := Box("A", true, true)],
                     map["m" := UidState(1, 1, 0)], map["v" := UidState(1, 1, 0)]);
    var m := SelectRow(Row(Virtual, "v", "A", true), UidState(1, 1, 0));
    assert Matches(c, ById("v"), m);
    forall n | Matches(c, ById("v"), n) ensures n == m {
      assert n.row.id == "v";
    }
    assert Select(c, ById("v")) == Ok(m);
    assert VisibleMailbox(c, "m");
    SelectedByIdIsListedIff(c, "v");
  }

  /** Names are unique among the mailboxes and among the views of an account. */
  predicate UniqueNames(c: Catalog)
  {
    && (forall a, b :: a in c.mailboxes && b in c.mailboxes && c.mailboxes[a].name == c.mailboxes[b].name ==> a == b)
    && (forall a, b :: a in c.views && b in c.views && c.views[a].name == c.views[b].name ==> a == b)
  }

  /** Can this entry's UID state be served? */
  predicate Servable(c: Catalog, r: Row)
  {
    var uids := if r.kind.Ordinary? then c.mailboxUids else c.viewUids;
    r.id in uids && Fits(uids[r.id]) && uids[r.id].validity > 0 && uids[r.id].next > 0
  }

  /** SELECT by name succeeds exactly on the names of the full LIST that are selectable and have
      usable UID state, and it opens that entry. */
  lemma SelectByNameAgreesWithList(c: Catalog, name: string)
    requires UniqueNames(c) && List(c, "").Ok?
    ensures Select(c, ByName(name)).Ok? <==>
            exists e :: e in Query(c, "") && e.row.name == name && e.row.selectable && Servable(c, e.row)
    ensures Select(c, ByName(name)).Ok? ==>
              forall e :: e in Query(c, "") && e.row.name == name ==> e.row == Select(c, ByName(name)).value.row
  {
    hide Query, HasChildren, RowText, VisibleRows, Shadowed, UniqueNames, ListedRows;
    EmptyPrefix(c);
    if Select(c, ByName(name)).Ok? {
      SelectedByNameIsListed(c, name);
      var m := Select(c, ByName(name)).value;
      ListedIff(c, m.row);
      assert EntryOf(c, m.row).row == m.row && Servable(c, m.row);
      forall e | e in Query(c, "") && e.row.name == name ensures e.row == m.row {
        QueryRows(c, "", e);
        VisibleNamesUnique(c, e.row, m.row);
      }
    }
    if e :| e in Query(c, "") && e.row.name == name && e.row.selectable && Servable(c, e.row) {
      QueryRows(c, "", e);
      ListedIsSelected(c, e.row);
    }
  }

  lemma VisibleNamesUnique(c: Catalog, a: Row, b: Row)
    requires UniqueNames(c) && a in VisibleRows(c) && b in VisibleRows(c) && a.name == b.name
    ensures a == b
  {
    if a.kind.Ordinary? {
      assert VisibleMailbox(c, a.id);
    }
    if b.kind.Ordinary? {
      assert VisibleMailbox(c, b.id);
    }
  }

  lemma ListedIsSelected(c: Catalog, r: Row)
    requires UniqueNames(c) && r in VisibleRows(c) && r.selectable && Servable(c, r) && RowText(r)
    ensures Select(c, ByName(r.name)).Ok?
  {
    hide UniqueNames, Shadowed, RowText;
    var uids := if r.kind.Ordinary? then c.mailboxUids else c.viewUids;
    var m := SelectRow(r, uids[r.id]);
    assert Matches(c, ByName(r.name), m);
    forall n | Matches(c, ByName(r.name), n) ensures n == m {
      MatchIsVisible(c, ByName(r.name), n);
      VisibleNamesUnique(c, n.row, r);
    }
  }

  /** LIST fails exactly when some row it would list has an id or a name that is empty or has
      control characters. */
  lemma ListFailsIff(c: Catalog, prefix: string)
    ensures List(c, prefix).Err? <==> exists r :: Listable(c, prefix, r) && (!PlainText(r.id) || !PlainText(r.name))
  {
    hide Query, Listable, ListedRows, PlainText;
    forall r ensures r in ListedRows(c, prefix) <==> Listable(c, prefix, r) {
      ListedRowIff(c, prefix, r);
    }
  }

  /** SELECT by the name of a listed row, case by case. */
  lemma SelectByNameIs(c: Catalog, r: Row)
    requires UniqueNames(c) && Listable(c, "", r)
    ensures var uids := if r.kind.Ordinary? then c.mailboxUids else c.viewUids;
            Select(c, ByName(r.name)) ==
            if r.id !in uids then Err(NotFound)
            else if OutOfRange(Some(SelectRow(r, uids[r.id]))) then Err(InvalidData)
            else if !r.selectable then Err(Exists)
            else if !PlainText(r.id) || !PlainText(r.name) || uids[r.id].validity == 0 || uids[r.id].next == 0
            then Err(InvalidArgument)
            else Ok(SelectRow(r, uids[r.id]))
  {
    hide PlainText, UniqueNames, Shadowed;
    ListedRowIff(c, "", r);
    EmptyPrefix(c);
    var uids := if r.kind.Ordinary? then c.mailboxUids else c.viewUids;
    forall m ensures Matches(c, ByName(r.name), m) <==> r.id in uids && m == SelectRow(r, uids[r.id]) {
      if Matches(c, ByName(r.name), m) {
        MatchIsVisible(c, ByName(r.name), m);
        VisibleNamesUnique(c, m.row, r);
      }
      if r.id in uids && m == SelectRow(r, uids[r.id]) {
        VisibleMatches(c, r, m);
      }
    }
  }

  lemma VisibleMatches(c: Catalog, r: Row, m: SelectRow)
    requires r in VisibleRows(c) && m.row == r
    requires var uids := if r.kind.Ordinary? then c.mailboxUids else c.viewUids; r.id in uids && m.uids == uids[r.id]
    ensures Matches(c, ByName(r.name), m)
  {
    hide Shadowed;
  }

  /** A name that is not listed is not found. */
  lemma UnlistedNameIsNotFound(c: Catalog, name: string)
    requires forall r: Row :: r.name == name ==> !Listable(c, "", r)
    ensures Select(c, ByName(name)) == Err(NotFound)
  {
    hide Listable, Shadowed, VisibleRows;
    EmptyPrefix(c);
    forall m ensures !Matches(c, ByName(name), m) {
      if Matches(c, ByName(name), m) {
        MatchIsVisible(c, ByName(name), m);
        ListedRowIff(c, "", m.row);
      }
    }
  }
}
