/**
 * The text form of mail events: a magic line and key=value lines with percent-escaped
 * values. Print is what the daemon writes; ParseEvent is a reader for it that knows only
 * the documented format.
 */
module EventText {
  import opened Basics

  const MAGIC: string := "wyrebox-mail-event/1"

  // ----- values -----

  predicate NeedsEscape(c: char)
  {
    c == '%' || c < ' ' || c == '\U{7f}'
  }

  function HexDigit(n: nat): char
    requires n < 16
  {
    "0123456789ABCDEF"[n]
  }

  function EscapeChar(c: char): string
  {
    if NeedsEscape(c) then ['%', HexDigit(c as int / 16), HexDigit(c as int % 16)] else [c]
  }

  function Escape(v: string): string
  {
    if v == "" then "" else EscapeChar(v[0]) + Escape(v[1..])
  }

  function HexValue(c: char): (r: Option<nat>)
    ensures r.Some? ==> r.value < 16
  {
    if '0' <= c <= '9' then Some(c as int - '0' as int)
    else if 'A' <= c <= 'F' then Some(c as int - 'A' as int + 10)
    else if 'a' <= c <= 'f' then Some(c as int - 'a' as int + 10)
    else None
  }

  /** Percent-decoding. */
  function Unescape(s: string): Option<string>
  {
    if s == "" then Some("")
    else if s[0] != '%' then
      var rest := Unescape(s[1..]);
      if rest.None? then None else Some([s[0]] + rest.value)
    else if |s| < 3 || HexValue(s[1]).None? || HexValue(s[2]).None? then None
    else
      var rest := Unescape(s[3..]);
      if rest.None? then None
      else Some([(HexValue(s[1]).value * 16 + HexValue(s[2]).value) as char] + rest.value)
  }

  lemma EscapedCharReadsBack(c: char, rest: string)
    requires NeedsEscape(c)
    ensures var t := EscapeChar(c) + rest;
            && |t| >= 3 && t[0] == '%' && t[3..] == rest
            && HexValue(t[1]) == Some(c as int / 16) && HexValue(t[2]) == Some(c as int % 16)
  {
  }

  /** Any value, of whatever characters, is recovered by percent-decoding. */
  lemma {:induction false} UnescapeEscape(v: string)
    ensures Unescape(Escape(v)) == Some(v)
  {
    if v != "" {
      UnescapeEscape(v[1..]);
      var t := EscapeChar(v[0]) + Escape(v[1..]);
      assert Escape(v) == t;
      if NeedsEscape(v[0]) {
        EscapedCharReadsBack(v[0], Escape(v[1..]));
        assert (v[0] as int / 16 * 16 + v[0] as int % 16) as char == v[0];
      } else {
        assert t[0] == v[0] && t[1..] == Escape(v[1..]);
      }
      assert v == [v[0]] + v[1..];
    }
  }

  lemma EscapedCharHidesControls(c: char, x: char)
    requires x in EscapeChar(c) && (x < ' ' || x == '\U{7f}' || x == ' ')
    ensures x == c == ' '
  {
    assert forall n: nat :: n < 16 ==> '0' <= HexDigit(n) <= 'F';
  }

  /** Escaped text has no control characters, and its spaces are those of the value. */
  lemma {:induction false} EscapeHidesControls(v: string, x: char)
    requires x in Escape(v) && (x < ' ' || x == '\U{7f}' || x == ' ')
    ensures x == ' ' && ' ' in v
  {
    if x in EscapeChar(v[0]) {
      EscapedCharHidesControls(v[0], x);
    } else {
      EscapeHidesControls(v[1..], x);
    }
  }

  lemma EscapeHasNoNewline(v: string)
    ensures '\n' !in Escape(v)
  {
    if '\n' in Escape(v) {
      EscapeHidesControls(v, '\n');
    }
  }

  // ----- lists -----

  function JoinSpaced(vs: seq<string>): string
  {
    if vs == [] then "" else if |vs| == 1 then Escape(vs[0]) else Escape(vs[0]) + " " + JoinSpaced(vs[1..])
  }

  lemma {:induction false} JoinSpacedAppend(vs: seq<string>, v: string)
    ensures JoinSpaced(vs + [v]) == (if vs == [] then Escape(v) else JoinSpaced(vs) + " " + Escape(v))
  {
    hide Escape;
    if |vs| > 1 {
      JoinSpacedAppend(vs[1..], v);
      assert (vs + [v])[1..] == vs[1..] + [v];
    } else if |vs| == 1 {
      assert (vs + [v])[1..] == [v];
    }
  }

  function SplitSpaces(s: string): seq<string>
    decreases |s|
  {
    var k := Cut(s, ' ');
    if k == |s| then [s] else [s[..k]] + SplitSpaces(s[k + 1..])
  }

  /** An empty text is an empty list. */
  function SplitList(s: string): seq<string>
  {
    if s == "" then [] else SplitSpaces(s)
  }

  function UnescapeAll(parts: seq<string>): (r: Option<seq<string>>)
    ensures r.Some? ==> |r.value| == |parts|
  {
    if parts == [] then Some([])
    else
      var head, tail := Unescape(parts[0]), UnescapeAll(parts[1..]);
      if head.None? || tail.None? then None else Some([head.value] + tail.value)
  }

  function ParseList(s: string): Option<seq<string>>
  {
    UnescapeAll(SplitList(s))
  }

  /** Splitting on spaces and percent-decoding gives the list back. */
  predicate ListRecovered(vs: seq<string>)
  {
    ParseList(JoinSpaced(vs)) == Some(vs)
  }

  /** No value has a space, and the list is not one empty value. */
  predicate Recoverable(vs: seq<string>)
  {
    vs != [""] && forall i :: 0 <= i < |vs| ==> ' ' !in vs[i]
  }

  lemma {:induction false} SplitRecovers(vs: seq<string>)
    requires vs != [] && forall i :: 0 <= i < |vs| ==> ' ' !in vs[i]
    ensures UnescapeAll(SplitSpaces(JoinSpaced(vs))) == Some(vs)
  {
    hide Escape, Unescape, SplitSpaces, Cut;
    var head := Escape(vs[0]);
    if ' ' in head {
      EscapeHidesControls(vs[0], ' ');
    }
    UnescapeEscape(vs[0]);
    if |vs| == 1 {
      SplitOne(head);
      assert [head][0] == head && [head][1..] == [] && [vs[0]] + [] == [vs[0]];
      assert UnescapeAll([head]) == Some([vs[0]]);
      assert JoinSpaced(vs) == head && vs == [vs[0]];
    } else {
      var rest := JoinSpaced(vs[1..]);
      SplitMore(head, rest);
      SplitRecovers(vs[1..]);
      var parts := [head] + SplitSpaces(rest);
      assert parts[0] == head && parts[1..] == SplitSpaces(rest);
      assert vs == [vs[0]] + vs[1..];
    }
  }

  lemma SplitOne(head: string)
    requires ' ' !in head
    ensures SplitSpaces(head) == [head]
  {
    CutAt(head, "", ' ');
  }

  lemma SplitMore(head: string, rest: string)
    requires ' ' !in head
    ensures SplitSpaces(head + " " + rest) == [head] + SplitSpaces(rest)
  {
    hide Cut;
    CutAt(head, rest, ' ');
    var s := head + [' '] + rest;
    assert s == head + " " + rest;
    assert s[..|head|] == head && s[|head| + 1..] == rest;
  }

  function Spaces(s: string): nat
  {
    if s == "" then 0 else (if s[0] == ' ' then 1 else 0) + Spaces(s[1..])
  }

  lemma {:induction false} SpacesConcat(a: string, b: string)
    ensures Spaces(a + b) == Spaces(a) + Spaces(b)
  {
    if a == "" {
      assert a + b == b;
    } else {
      assert (a + b)[0] == a[0] && (a + b)[1..] == a[1..] + b;
      SpacesConcat(a[1..], b);
    }
  }

  lemma {:induction false} CutSpaces(s: string)
    ensures var k := Cut(s, ' ');
            && ' ' !in s[..k] && Spaces(s[..k]) == 0
            && (k < |s| ==> s[k] == ' ' && Spaces(s) == 1 + Spaces(s[k + 1..]))
            && (k == |s| ==> Spaces(s) == 0)
  {
    if s != "" && s[0] != ' ' {
      CutSpaces(s[1..]);
      var k := Cut(s, ' ');
      assert s[..k] == [s[0]] + s[1..][..k - 1];
      assert s[..k][1..] == s[1..][..k - 1];
      assert k < |s| ==> s[1..][k..] == s[k + 1..];
    }
  }

  lemma {:induction false} SplitCounts(s: string)
    ensures |SplitSpaces(s)| == 1 + Spaces(s)
    decreases |s|
  {
    CutSpaces(s);
    var k := Cut(s, ' ');
    if k < |s| {
      SplitCounts(s[k + 1..]);
    }
  }

  lemma {:induction false} EscapeKeepsSpaces(v: string)
    ensures Spaces(Escape(v)) == Spaces(v)
  {
    if v != "" {
      EscapeKeepsSpaces(v[1..]);
      SpacesConcat(EscapeChar(v[0]), Escape(v[1..]));
      CharSpaces(v[0]);
    }
  }

  lemma CharSpaces(c: char)
    ensures Spaces(EscapeChar(c)) == (if c == ' ' then 1 else 0)
  {
    var t := EscapeChar(c);
    if NeedsEscape(c) {
      assert t[1..] == [t[1], t[2]] && t[1..][1..] == [t[2]];
      assert forall n: nat :: n < 16 ==> HexDigit(n) != ' ';
      assert Spaces([t[2]]) == 0;
    } else {
      assert t[1..] == "";
    }
  }

  lemma {:induction false} JoinCounts(vs: seq<string>)
    requires vs != []
    ensures Spaces(JoinSpaced(vs)) >= |vs| - 1
    ensures (exists i :: 0 <= i < |vs| && ' ' in vs[i]) ==> Spaces(JoinSpaced(vs)) >= |vs|
  {
    EscapeKeepsSpaces(vs[0]);
    HasSpace(vs[0]);
    if |vs| > 1 {
      JoinCounts(vs[1..]);
      SpacesConcat(Escape(vs[0]) + " ", JoinSpaced(vs[1..]));
      SpacesConcat(Escape(vs[0]), " ");
      assert Spaces(" ") == 1;
      if i :| 0 <= i < |vs| && ' ' in vs[i] {
        if i > 0 {
          assert vs[1..][i - 1] == vs[i];
        }
      }
    }
  }

  lemma {:induction false} HasSpace(v: string)
    ensures ' ' in v <==> Spaces(v) > 0
  {
    if v != "" {
      HasSpace(v[1..]);
    }
  }

  /** A list survives exactly when no value has a space and it is not one empty value. */
  lemma ListReadsBackIff(vs: seq<string>)
    ensures ListRecovered(vs) <==> Recoverable(vs)
  {
    if vs != [] {
      if forall i :: 0 <= i < |vs| ==> ' ' !in vs[i] {
        SplitRecovers(vs);
        if JoinSpaced(vs) == "" {
          JoinCounts(vs);
          assert |vs| == 1;
          UnescapeEscape(vs[0]);
        }
      } else {
        JoinCounts(vs);
        SplitCounts(JoinSpaced(vs));
      }
    }
  }

  lemma {:induction false} JoinHasNoNewline(vs: seq<string>)
    ensures '\n' !in JoinSpaced(vs)
  {
    if vs != [] {
      EscapeHasNoNewline(vs[0]);
      JoinHasNoNewline(vs[1..]);
    }
  }

  // ----- lines -----

  /** value is the text after the first '=', still escaped. */
  datatype Field = Field(key: string, value: string)

  function Line(f: Field): string
  {
    f.key + "=" + f.value + "\n"
  }

  function Render(fs: seq<Field>): string
  {
    if fs == [] then "" else Line(fs[0]) + Render(fs[1..])
  }

  function ParseFields(text: string): Option<seq<Field>>
    decreases |text|
  {
    if text == "" then Some([])
    else
      var n := Cut(text, '\n');
      if n == |text| then None
      else
        var line := text[..n];
        var k := Cut(line, '=');
        var rest := ParseFields(text[n + 1..]);
        if k == |line| || rest.None? then None else Some([Field(line[..k], line[k + 1..])] + rest.value)
  }

  predicate Writable(f: Field)
  {
    '\n' !in f.key && '=' !in f.key && '\n' !in f.value
  }

  predicate AllWritable(fs: seq<Field>)
  {
    forall i :: 0 <= i < |fs| ==> Writable(fs[i])
  }

  lemma {:induction false} FieldsReadBack(fs: seq<Field>)
    requires AllWritable(fs)
    ensures ParseFields(Render(fs)) == Some(fs)
  {
    hide Line, Cut, Writable;
    if fs != [] {
      var f, rest := fs[0], Render(fs[1..]);
      FieldsReadBack(fs[1..]);
      LineReadsBack(f, rest);
      FieldFirst(f, rest);
      assert Render(fs) == Line(f) + rest && fs == [f] + fs[1..];
    }
  }

  lemma FieldFirst(f: Field, rest: string)
    requires Writable(f) && ParseFields(rest).Some?
    ensures ParseFields(Line(f) + rest) == Some([f] + ParseFields(rest).value)
  {
    hide Line, Cut, Writable;
    LineReadsBack(f, rest);
    var text := Line(f) + rest;
    assert text != "";
  }

  lemma LineReadsBack(f: Field, rest: string)
    requires Writable(f)
    ensures var text := Line(f) + rest;
            var n := Cut(text, '\n');
            && n < |text| && text[n + 1..] == rest
            && var line := text[..n];
               var k := Cut(line, '=');
               k < |line| && Field(line[..k], line[k + 1..]) == f
  {
    var line := f.key + "=" + f.value;
    assert Line(f) + rest == line + ['\n'] + rest;
    CutAt(line, rest, '\n');
    CutAt(f.key, f.value, '=');
    assert line == f.key + ['='] + f.value;
    assert (line + ['\n'] + rest)[..|line|] == line && (line + ['\n'] + rest)[|line| + 1..] == rest;
    assert line[..|f.key|] == f.key && line[|f.key| + 1..] == f.value;
  }

  // ----- events -----

  datatype Mode = SetFlags | ClearFlags | ReplaceFlags

  datatype Body =
    | Delivered(deliveryId: Option<string>, size: nat, date: nat)
    | FlagChanged(mailbox: string, validity: nat, uid: nat, mode: Mode, flags: seq<string>, keywords: seq<string>)
    | ViewMembership(view: string, validity: nat, uid: nat, message: string, visible: bool)

  datatype Kind = KDelivered | KFlagChanged | KViewMembership

  datatype Event = Event(offset: nat, sequence: nat, account: string, body: Body)

  function KindOf(body: Body): Kind
  {
    match body
    case Delivered(_, _, _) => KDelivered
    case FlagChanged(_, _, _, _, _, _) => KFlagChanged
    case ViewMembership(_, _, _, _, _) => KViewMembership
  }

  function TypeName(kind: Kind): string
  {
    match kind
    case KDelivered => "MessageDelivered"
    case KFlagChanged => "FlagChanged"
    case KViewMembership => "DerivedViewMembershipChanged"
  }

  function ModeName(mode: Mode): string
  {
    match mode
    case SetFlags => "set"
    case ClearFlags => "clear"
    case ReplaceFlags => "replace"
  }

  function BoolName(b: bool): string
  {
    if b then "true" else "false"
  }

  function TextField(key: string, value: string): Field
  {
    Field(key, Escape(value))
  }

  function NumberField(key: string, n: nat): Field
  {
    Field(key, Decimal(n))
  }

  function BodyFields(body: Body): seq<Field>
  {
    match body
    case Delivered(id, size, date) =>
      (if id.Some? then [TextField("delivery_id", id.value)] else []) +
      [NumberField("size_bytes", size), NumberField("internal_date_unix_us", date)]
    case FlagChanged(mailbox, validity, uid, mode, flags, keywords) =>
      [TextField("mailbox_id", mailbox), NumberField("uidvalidity", validity), NumberField("uid", uid),
       TextField("mode", ModeName(mode)), Field("system_flags", JoinSpaced(flags)),
       Field("user_keywords", JoinSpaced(keywords))]
    case ViewMembership(view, validity, uid, message, visible) =>
      [TextField("view_id", view), NumberField("uidvalidity", validity), NumberField("uid", uid),
       TextField("message_id", message), TextField("is_visible", BoolName(visible))]
  }

  function HeadFields(e: Event): seq<Field>
  {
    [NumberField("offset", e.offset), NumberField("sequence", e.sequence),
     TextField("event_type", TypeName(KindOf(e.body))), TextField("account", e.account)]
  }

  function Print(e: Event): string
  {
    MAGIC + "\n" + Render(HeadFields(e) + BodyFields(e.body))
  }

  // ----- reading an event -----

  function ParseMode(s: string): Option<Mode>
  {
    if s == "set" then Some(SetFlags) else if s == "clear" then Some(ClearFlags)
    else if s == "replace" then Some(ReplaceFlags) else None
  }

  function ParseBool(s: string): Option<bool>
  {
    if s == "true" then Some(true) else if s == "false" then Some(false) else None
  }

  function Keys(fs: seq<Field>): seq<string>
  {
    seq(|fs|, i requires 0 <= i < |fs| => fs[i].key)
  }

  function ParseDelivered(fs: seq<Field>): Option<Body>
  {
    var n := |fs|;
    if n < 2 || n > 3 then None
    else if Keys(fs[n - 2..]) != ["size_bytes", "internal_date_unix_us"] then None
    else if n == 3 && fs[0].key != "delivery_id" then None
    else
      var id, size, date := Unescape(fs[0].value), ParseDecimal(fs[n - 2].value), ParseDecimal(fs[n - 1].value);
      if size.None? || date.None? || (n == 3 && id.None?) then None
      else Some(Delivered(if n == 3 then id else None, size.value, date.value))
  }

  function ParseFlagChanged(fs: seq<Field>): Option<Body>
  {
    if |fs| != 6 || Keys(fs) != ["mailbox_id", "uidvalidity", "uid", "mode", "system_flags", "user_keywords"] then None
    else
      var mailbox, validity, uid := Unescape(fs[0].value), ParseDecimal(fs[1].value), ParseDecimal(fs[2].value);
      var mode, flags, keywords := ParseMode(fs[3].value), ParseList(fs[4].value), ParseList(fs[5].value);
      if mailbox.None? || validity.None? || uid.None? || mode.None? || flags.None? || keywords.None? then None
      else Some(FlagChanged(mailbox.value, validity.value, uid.value, mode.value, flags.value, keywords.value))
  }

  function ParseViewMembership(fs: seq<Field>): Option<Body>
  {
    if |fs| != 5 || Keys(fs) != ["view_id", "uidvalidity", "uid", "message_id", "is_visible"] then None
    else
      var view, validity, uid := Unescape(fs[0].value), ParseDecimal(fs[1].value), ParseDecimal(fs[2].value);
      var message, visible := Unescape(fs[3].value), ParseBool(fs[4].value);
      if view.None? || validity.None? || uid.None? || message.None? || visible.None? then None
      else Some(ViewMembership(view.value, validity.value, uid.value, message.value, visible.value))
  }

  function ParseBody(typeName: string, fs: seq<Field>): Option<Body>
  {
    if typeName == "MessageDelivered" then ParseDelivered(fs)
    else if typeName == "FlagChanged" then ParseFlagChanged(fs)
    else if typeName == "DerivedViewMembershipChanged" then ParseViewMembership(fs)
    else None
  }

  function ParseEventFields(fs: seq<Field>): Option<Event>
  {
    if |fs| < 4 || Keys(fs[..4]) != ["offset", "sequence", "event_type", "account"] then None
    else
      var offset, sequence := ParseDecimal(fs[0].value), ParseDecimal(fs[1].value);
      var typeName, account := Unescape(fs[2].value), Unescape(fs[3].value);
      if offset.None? || sequence.None? || typeName.None? || account.None? then None
      else
        var body := ParseBody(typeName.value, fs[4..]);
        if body.None? then None
        else Some(Event(offset.value, sequence.value, account.value, body.value))
  }

  function ParseEvent(text: string): Option<Event>
  {
    var n := Cut(text, '\n');
    if n == |text| || text[..n] != MAGIC then None
    else
      var fs := ParseFields(text[n + 1..]);
      if fs.None? then None else ParseEventFields(fs.value)
  }

  // ----- reading back -----

  predicate BodyRecoverable(body: Body)
  {
    body.FlagChanged? ==> Recoverable(body.flags) && Recoverable(body.keywords)
  }

  lemma TextFieldWritable(key: string, value: string)
    requires '\n' !in key && '=' !in key
    ensures Writable(TextField(key, value)) && Unescape(TextField(key, value).value) == Some(value)
  {
    EscapeHasNoNewline(value);
    UnescapeEscape(value);
  }

  lemma NumberFieldWritable(key: string, n: nat)
    requires '\n' !in key && '=' !in key
    ensures Writable(NumberField(key, n)) && ParseDecimal(NumberField(key, n).value) == Some(n)
  {
    DecimalReadsBack(n);
  }

  lemma ListFieldWritable(key: string, values: seq<string>)
    requires '\n' !in key && '=' !in key
    ensures Writable(Field(key, JoinSpaced(values)))
  {
    JoinHasNoNewline(values);
  }

  lemma PlainWords(mode: Mode, visible: bool)
    ensures ParseMode(Escape(ModeName(mode))) == Some(mode)
    ensures ParseBool(Escape(BoolName(visible))) == Some(visible)
  {
    EscapeIsIdentity(ModeName(mode));
    EscapeIsIdentity(BoolName(visible));
  }

  lemma {:induction false} EscapeIsIdentity(v: string)
    requires forall i :: 0 <= i < |v| ==> !NeedsEscape(v[i])
    ensures Escape(v) == v
  {
    if v != "" {
      EscapeIsIdentity(v[1..]);
      assert v == [v[0]] + v[1..];
    }
  }

  lemma DeliveredReadsBack(body: Body)
    requires body.Delivered?
    ensures AllWritable(BodyFields(body))
    ensures ParseDelivered(BodyFields(body)) == Some(body)
  {
    hide Escape, Unescape, Decimal, ParseDecimal;
    NumberFieldWritable("size_bytes", body.size);
    NumberFieldWritable("internal_date_unix_us", body.date);
    if body.deliveryId.Some? {
      TextFieldWritable("delivery_id", body.deliveryId.value);
    }
    var fs := BodyFields(body);
    assert Keys(fs[|fs| - 2..]) == ["size_bytes", "internal_date_unix_us"];
  }

  lemma FlagChangedReadsBack(body: Body)
    requires body.FlagChanged?
    ensures AllWritable(BodyFields(body))
    ensures ParseFlagChanged(BodyFields(body)) == Some(body) <==> BodyRecoverable(body)
  {
    hide Escape, Unescape, Decimal, ParseDecimal, ParseMode, ModeName, BoolName, ParseList, JoinSpaced, Recoverable, Writable;
    TextFieldWritable("mailbox_id", body.mailbox);
    NumberFieldWritable("uidvalidity", body.validity);
    NumberFieldWritable("uid", body.uid);
    TextFieldWritable("mode", ModeName(body.mode));
    PlainWords(body.mode, true);
    ListReadsBackIff(body.flags);
    ListReadsBackIff(body.keywords);
    ListFieldWritable("system_flags", body.flags);
    ListFieldWritable("user_keywords", body.keywords);
    assert Keys(BodyFields(body)) == ["mailbox_id", "uidvalidity", "uid", "mode", "system_flags", "user_keywords"];
  }

  lemma ViewMembershipReadsBack(body: Body)
    requires body.ViewMembership?
    ensures AllWritable(BodyFields(body))
    ensures ParseViewMembership(BodyFields(body)) == Some(body)
  {
    hide Escape, Unescape, Decimal, ParseDecimal, BoolName, ParseBool;
    TextFieldWritable("view_id", body.view);
    NumberFieldWritable("uidvalidity", body.validity);
    NumberFieldWritable("uid", body.uid);
    TextFieldWritable("message_id", body.message);
    TextFieldWritable("is_visible", BoolName(body.visible));
    PlainWords(SetFlags, body.visible);
    assert Keys(BodyFields(body)) == ["view_id", "uidvalidity", "uid", "message_id", "is_visible"];
  }

  predicate BodyRecovered(body: Body)
  {
    ParseBody(TypeName(KindOf(body)), BodyFields(body)) == Some(body)
  }

  lemma BodyReadsBack(body: Body)
    ensures AllWritable(BodyFields(body))
    ensures BodyRecovered(body) <==> BodyRecoverable(body)
  {
    hide BodyFields, ParseDelivered, ParseFlagChanged, ParseViewMembership;
    match body
    case Delivered(_, _, _) => DeliveredReadsBack(body);
    case FlagChanged(_, _, _, _, _, _) => FlagChangedReadsBack(body);
    case ViewMembership(_, _, _, _, _) => ViewMembershipReadsBack(body);
  }

  lemma HeadReadsBack(e: Event)
    ensures |HeadFields(e)| == 4 && AllWritable(HeadFields(e))
    ensures ParseEventFields(HeadFields(e) + BodyFields(e.body)) == Some(e) <==> BodyRecoverable(e.body)
  {
    hide Escape, Unescape, Decimal, ParseDecimal, BodyFields, ParseBody, TypeName, KindOf, BodyRecoverable;
    NumberFieldWritable("offset", e.offset);
    NumberFieldWritable("sequence", e.sequence);
    TextFieldWritable("event_type", TypeName(KindOf(e.body)));
    TextFieldWritable("account", e.account);
    BodyReadsBack(e.body);
    var fs := HeadFields(e) + BodyFields(e.body);
    assert Keys(fs[..4]) == ["offset", "sequence", "event_type", "account"];
    assert fs[4..] == BodyFields(e.body);
  }

  predicate EventRecovered(e: Event)
  {
    ParseEvent(Print(e)) == Some(e)
  }

  /** An event is recovered from its text exactly when its flag lists are recoverable. */
  lemma EventReadsBackIff(e: Event)
    ensures EventRecovered(e) <==> BodyRecoverable(e.body)
  {
    hide Render, ParseFields, HeadFields, BodyFields, ParseEventFields, BodyRecoverable;
    PrintedFields(e);
    HeadReadsBack(e);
  }

  lemma PrintedFields(e: Event)
    ensures ParseEvent(Print(e)) == ParseEventFields(HeadFields(e) + BodyFields(e.body))
  {
    hide Render, ParseFields, HeadFields, BodyFields, ParseEventFields, ParseEvent, MAGIC, Writable;
    HeadReadsBack(e);
    BodyReadsBack(e.body);
    var fs := HeadFields(e) + BodyFields(e.body);
    FieldsReadBack(fs);
    MagicCut(Render(fs), fs);
  }

  lemma MagicCut(body: string, fs: seq<Field>)
    requires ParseFields(body) == Some(fs)
    ensures ParseEvent(MAGIC + "\n" + body) == ParseEventFields(fs)
  {
    assert '\n' !in MAGIC;
    hide ParseFields, ParseEventFields, Cut, MAGIC;
    FirstLine(MAGIC, body);
  }

  lemma FirstLine(line: string, rest: string)
    requires '\n' !in line
    ensures var text := line + "\n" + rest;
            Cut(text, '\n') == |line| && text[..|line|] == line && text[|line| + 1..] == rest
  {
    CutAt(line, rest, '\n');
    assert line + "\n" + rest == line + ['\n'] + rest;
  }

  /** Two events with recoverable lists never print alike. */
  lemma DistinctEventsPrintDistinctly(a: Event, b: Event)
    requires BodyRecoverable(a.body) && BodyRecoverable(b.body) && a != b
    ensures Print(a) != Print(b)
  {
    EventReadsBackIff(a);
    EventReadsBackIff(b);
  }

  /** What a reader that only follows the stream takes from an event: offset and sequence. */
  function ParseCursor(text: string): Option<(nat, nat)>
  {
    var n := Cut(text, '\n');
    if n == |text| then None
    else
      var fs := ParseFields(text[n + 1..]);
      if fs.None? then None else CursorOf(fs.value)
  }

  function CursorOf(fs: seq<Field>): Option<(nat, nat)>
  {
    if |fs| < 2 || fs[0].key != "offset" || fs[1].key != "sequence" then None
    else
      var offset, sequence := ParseDecimal(fs[0].value), ParseDecimal(fs[1].value);
      if offset.None? || sequence.None? then None else Some((offset.value, sequence.value))
  }

  lemma HeadCursor(e: Event)
    ensures CursorOf(HeadFields(e) + BodyFields(e.body)) == Some((e.offset, e.sequence))
  {
    hide BodyFields, Decimal, ParseDecimal, Escape, TypeName, KindOf;
    NumberFieldWritable("offset", e.offset);
    NumberFieldWritable("sequence", e.sequence);
  }

  /** Every event carries its position, whatever its values and lists. */
  lemma CursorReadsBack(e: Event)
    ensures ParseCursor(Print(e)) == Some((e.offset, e.sequence))
  {
    assert '\n' !in MAGIC;
    hide Render, ParseFields, HeadFields, BodyFields, CursorOf, Cut, MAGIC, Writable, ParseEvent;
    HeadReadsBack(e);
    BodyReadsBack(e.body);
    var fs := HeadFields(e) + BodyFields(e.body);
    FieldsReadBack(fs);
    FirstLine(MAGIC, Render(fs));
    HeadCursor(e);
  }

  /** A space inside a value makes two different flag changes print alike. */
  lemma SpacesPrintAlike()
    ensures var a := Event(0, 1, "u", FlagChanged("m", 1, 1, SetFlags, [], ["a b"]));
            var b := Event(0, 1, "u", FlagChanged("m", 1, 1, SetFlags, [], ["a", "b"]));
            a != b && Print(a) == Print(b)
  {
    EscapeIsIdentity("a b");
    EscapeIsIdentity("a");
    EscapeIsIdentity("b");
    assert ["a", "b"][1..] == ["b"];
    assert JoinSpaced(["a b"]) == "a b" == JoinSpaced(["a", "b"]);
  }

  // ----- the exact form -----

  /** Only the percent sign, control characters and DEL are escaped, as two capital hex digits. */
  lemma EscapeIsExact(c: char)
    ensures EscapeChar(c) ==
            if c == '%' then "%25" else if c == '\n' then "%0A" else if c == '\U{1f}' then "%1F"
            else if c == '\U{7f}' then "%7F" else if c < ' ' then EscapeChar(c) else [c]
    ensures c < ' ' ==> |EscapeChar(c)| == 3 && EscapeChar(c)[0] == '%'
  {
  }

  function KeyValue(key: string, value: string): string
  {
    key + "=" + value + "\n"
  }

  lemma {:induction false} RenderConcat(a: seq<Field>, b: seq<Field>)
    ensures Render(a + b) == Render(a) + Render(b)
  {
    hide Line;
    if a == [] {
      assert a + b == b;
    } else {
      assert (a + b)[0] == a[0] && (a + b)[1..] == a[1..] + b;
      RenderConcat(a[1..], b);
    }
  }

  lemma RenderThree(a: Field, b: Field, c: Field)
    ensures Render([a, b, c]) == KeyValue(a.key, a.value) + KeyValue(b.key, b.value) + KeyValue(c.key, c.value)
    ensures Render([a, b]) == KeyValue(a.key, a.value) + KeyValue(b.key, b.value)
    ensures Render([a]) == KeyValue(a.key, a.value)
  {
    assert Line(a) == KeyValue(a.key, a.value) && Line(b) == KeyValue(b.key, b.value) && Line(c) == KeyValue(c.key, c.value);
    hide Line, KeyValue;
    RenderAppend([], a);
    RenderAppend([a], b);
    RenderAppend([a, b], c);
    assert [] + [a] == [a] && [a] + [b] == [a, b] && [a, b] + [c] == [a, b, c] && Render([]) == "";
  }

  /** The lines every event starts with. */
  lemma HeadFormat(e: Event, typeName: string)
    requires typeName == TypeName(KindOf(e.body)) && Escape(typeName) == typeName
    ensures Print(e) ==
            ("wyrebox-mail-event/1" + "\n") +
            ((KeyValue("offset", Decimal(e.offset)) + KeyValue("sequence", Decimal(e.sequence))) +
             (KeyValue("event_type", typeName) + KeyValue("account", Escape(e.account)))) +
            Render(BodyFields(e.body))
  {
    hide BodyFields, TypeName, KindOf, Decimal, Escape, KeyValue, Render, MAGIC;
    var h := HeadFields(e);
    RenderThree(h[0], h[1], h[0]);
    RenderThree(h[2], h[3], h[0]);
    RenderConcat([h[0], h[1]], [h[2], h[3]]);
    RenderConcat(h, BodyFields(e.body));
    assert h == [h[0], h[1]] + [h[2], h[3]];
    MagicText();
    Assoc(MAGIC + "\n", Render(h), Render(BodyFields(e.body)));
  }

  lemma MagicText()
    ensures MAGIC == "wyrebox-mail-event/1"
  {
  }

  /** The lines of a delivery, after the common ones. */
  lemma DeliveredFormat(e: Event)
    requires e.body.Delivered?
    ensures TypeName(KindOf(e.body)) == "MessageDelivered"
    ensures Render(BodyFields(e.body)) ==
            (if e.body.deliveryId.Some? then KeyValue("delivery_id", Escape(e.body.deliveryId.value)) else "") +
            (KeyValue("size_bytes", Decimal(e.body.size)) + KeyValue("internal_date_unix_us", Decimal(e.body.date)))
  {
    hide Decimal, Escape, KeyValue, Render;
    var size, date := NumberField("size_bytes", e.body.size), NumberField("internal_date_unix_us", e.body.date);
    var id := if e.body.deliveryId.Some? then [TextField("delivery_id", e.body.deliveryId.value)] else [];
    RenderThree(size, date, date);
    RenderConcat(id, [size, date]);
    if e.body.deliveryId.Some? {
      RenderThree(id[0], date, date);
    } else {
      NothingToRender();
    }
  }

  lemma NothingToRender()
    ensures Render([]) == ""
  {
  }

  /** The lines of a flag change. */
  lemma FlagChangedFormat(e: Event)
    requires e.body.FlagChanged?
    ensures TypeName(KindOf(e.body)) == "FlagChanged"
    ensures Render(BodyFields(e.body)) ==
            (KeyValue("mailbox_id", Escape(e.body.mailbox)) + KeyValue("uidvalidity", Decimal(e.body.validity)) +
             KeyValue("uid", Decimal(e.body.uid))) +
            (KeyValue("mode", match e.body.mode case SetFlags => "set" case ClearFlags => "clear" case ReplaceFlags => "replace") +
             KeyValue("system_flags", JoinSpaced(e.body.flags)) + KeyValue("user_keywords", JoinSpaced(e.body.keywords)))
  {
    var body := e.body;
    EscapeIsIdentity(ModeName(body.mode));
    hide Decimal, Escape, KeyValue, Render, JoinSpaced;
    var fs := BodyFields(body);
    RenderThree(fs[0], fs[1], fs[2]);
    RenderThree(fs[3], fs[4], fs[5]);
    RenderConcat([fs[0], fs[1], fs[2]], [fs[3], fs[4], fs[5]]);
    assert fs == [fs[0], fs[1], fs[2]] + [fs[3], fs[4], fs[5]];
  }

  /** The lines of a derived view's membership change. */
  lemma ViewMembershipFormat(e: Event)
    requires e.body.ViewMembership?
    ensures TypeName(KindOf(e.body)) == "DerivedViewMembershipChanged"
    ensures Render(BodyFields(e.body)) ==
            (KeyValue("view_id", Escape(e.body.view)) + KeyValue("uidvalidity", Decimal(e.body.validity)) +
             KeyValue("uid", Decimal(e.body.uid))) +
            (KeyValue("message_id", Escape(e.body.message)) + KeyValue("is_visible", if e.body.visible then "true" else "false"))
  {
    var body := e.body;
    EscapeIsIdentity(BoolName(body.visible));
    hide Decimal, Escape, KeyValue, Render;
    var fs := BodyFields(body);
    RenderThree(fs[0], fs[1], fs[2]);
    RenderThree(fs[3], fs[4], fs[4]);
    RenderConcat([fs[0], fs[1], fs[2]], [fs[3], fs[4]]);
    assert fs == [fs[0], fs[1], fs[2]] + [fs[3], fs[4]];
  }

  // ----- the writer -----

  lemma NothingToEscape()
    ensures Escape("") == "" && JoinSpaced([]) == ""
  {
  }

  lemma {:induction false} EscapeAppend(v: string, c: char)
    ensures Escape(v + [c]) == Escape(v) + EscapeChar(c)
  {
    hide EscapeChar;
    if v == "" {
      assert (v + [c])[1..] == "" && Escape(v + [c]) == EscapeChar(c) + "";
    } else {
      EscapeAppend(v[1..], c);
      assert (v + [c])[1..] == v[1..] + [c];
    }
  }

  lemma {:induction false} RenderAppend(fs: seq<Field>, f: Field)
    ensures Render(fs + [f]) == Render(fs) + Line(f)
  {
    if fs == [] {
      assert (fs + [f])[1..] == [] && Render([]) == "";
    } else {
      RenderAppend(fs[1..], f);
      assert (fs + [f])[1..] == fs[1..] + [f];
    }
  }

  /** The growing text of one event, and the lines it has. */
  class EventBuffer {
    var text: string
    ghost var fields: seq<Field>

    ghost predicate Valid()
      reads this
    {
      text == MAGIC + "\n" + Render(fields)
    }

    /** Starts with the magic line and the fields every event has. */
    constructor (e: Event)
      ensures Valid() && fields == HeadFields(e)
    {
      assert Render([]) == "" && MAGIC + "\n" + "" == MAGIC + "\n";
      hide MAGIC, Render, Line, Decimal, Escape, TypeName, KindOf;
      text := MAGIC + "\n";
      fields := [];
      new;
      AppendUint64Field("offset", e.offset);
      AppendUint64Field("sequence", e.sequence);
      AppendField("event_type", TypeName(KindOf(e.body)));
      AppendField("account", e.account);
    }

    method AppendValue(value: string)
      modifies this`text
      ensures text == old(text) + Escape(value)
    {
      hide Escape;
      var i := 0;
      NothingToEscape();
      assert value[..0] == "" && text + "" == text;
      while i < |value|
        invariant i <= |value|
        invariant text == old(text) + Escape(value[..i])
      {
        EscapeAppend(value[..i], value[i]);
        assert value[..i + 1] == value[..i] + [value[i]];
        if NeedsEscape(value[i]) {
          text := text + ['%', HexDigit(value[i] as int / 16), HexDigit(value[i] as int % 16)];
        } else {
          text := text + [value[i]];
        }
        i := i + 1;
      }
      assert value[..i] == value;
    }

    method AppendField(key: string, value: string)
      requires Valid()
      modifies this
      ensures Valid() && fields == old(fields) + [TextField(key, value)]
    {
      hide MAGIC, Render, Escape;
      text := text + key;
      text := text + "=";
      AppendValue(value);
      text := text + "\n";
      RenderAppend(fields, TextField(key, value));
      fields := fields + [TextField(key, value)];
    }

    method AppendUint64Field(key: string, value: nat)
      requires Valid()
      modifies this
      ensures Valid() && fields == old(fields) + [NumberField(key, value)]
    {
      hide MAGIC, Render, Decimal;
      text := text + (key + "=" + Decimal(value) + "\n");
      RenderAppend(fields, NumberField(key, value));
      fields := fields + [NumberField(key, value)];
    }

    method AppendStrvField(key: string, values: seq<string>)
      requires Valid()
      modifies this
      ensures Valid() && fields == old(fields) + [Field(key, JoinSpaced(values))]
    {
      hide MAGIC, Render, Escape, JoinSpaced;
      NothingToEscape();
      text := text + key;
      text := text + "=";
      ghost var before := text;
      var i := 0;
      assert values[..0] == [] && text + "" == text;
      while i < |values|
        invariant i <= |values| && fields == old(fields)
        invariant text == before + JoinSpaced(values[..i])
      {
        JoinSpacedAppend(values[..i], values[i]);
        assert values[..i + 1] == values[..i] + [values[i]];
        if i > 0 {
          text := text + " ";
        }
        AppendValue(values[i]);
        i := i + 1;
      }
      assert values[..i] == values;
      text := text + "\n";
      RenderAppend(fields, Field(key, JoinSpaced(values)));
      fields := fields + [Field(key, JoinSpaced(values))];
    }

    method AppendDelivery(body: Body)
      requires Valid() && body.Delivered?
      modifies this
      ensures Valid() && fields == old(fields) + BodyFields(body)
    {
      hide Valid, Decimal, Escape;
      if body.deliveryId.Some? {
        AppendField("delivery_id", body.deliveryId.value);
      }
      AppendUint64Field("size_bytes", body.size);
      AppendUint64Field("internal_date_unix_us", body.date);
    }

    method AppendFlagChange(body: Body)
      requires Valid() && body.FlagChanged?
      modifies this
      ensures Valid() && fields == old(fields) + BodyFields(body)
    {
      hide Valid, Decimal, Escape, ModeName, JoinSpaced;
      AppendField("mailbox_id", body.mailbox);
      AppendUint64Field("uidvalidity", body.validity);
      AppendUint64Field("uid", body.uid);
      AppendField("mode", ModeName(body.mode));
      AppendStrvField("system_flags", body.flags);
      AppendStrvField("user_keywords", body.keywords);
    }

    method AppendViewMembership(body: Body)
      requires Valid() && body.ViewMembership?
      modifies this
      ensures Valid() && fields == old(fields) + BodyFields(body)
    {
      hide Valid, Decimal, Escape, BoolName;
      AppendField("view_id", body.view);
      AppendUint64Field("uidvalidity", body.validity);
      AppendUint64Field("uid", body.uid);
      AppendField("message_id", body.message);
      AppendField("is_visible", BoolName(body.visible));
    }
  }

  method PrintEvent(e: Event) returns (text: string)
    ensures text == Print(e)
  {
    hide MAGIC, Render, BodyFields, HeadFields;
    var event := new EventBuffer(e);
    match e.body {
      case Delivered(_, _, _) => event.AppendDelivery(e.body);
      case FlagChanged(_, _, _, _, _, _) => event.AppendFlagChange(e.body);
      case ViewMembership(_, _, _, _, _) => event.AppendViewMembership(e.body);
    }
    return event.text;
  }

  // ----- flag and keyword validation -----

  const SYSTEM_FLAGS: seq<string> := ["\\Seen", "\\Answered", "\\Flagged", "\\Deleted", "\\Draft"]

  predicate KeywordChar(c: char)
  {
    'a' <= c <= 'z' || 'A' <= c <= 'Z' || '0' <= c <= '9' || c == '_' || c == '-' || c == '.'
  }

  predicate IsControl(c: char)
  {
    c < ' ' || c == '\U{7f}'
  }

  predicate ValidSystemFlag(v: string)
  {
    v in SYSTEM_FLAGS
  }

  predicate ValidKeyword(v: string)
  {
    v != "" && forall i :: 0 <= i < |v| ==> KeywordChar(v[i])
  }

  predicate ValidLists(flags: seq<string>, keywords: seq<string>)
  {
    && Distinct(flags) && Distinct(keywords)
    && (forall i :: 0 <= i < |flags| ==> ValidSystemFlag(flags[i]))
    && (forall i :: 0 <= i < |keywords| ==> ValidKeyword(keywords[i]))
  }

  method ValidateNonEmptyText(value: string) returns (ok: bool)
    ensures ok <==> value != "" && forall i :: 0 <= i < |value| ==> !IsControl(value[i])
  {
    if value == "" {
      return false;
    }
    for i := 0 to |value|
      invariant forall k :: 0 <= k < i ==> !IsControl(value[k])
    {
      if IsControl(value[i]) {
        return false;
      }
    }
    return true;
  }

  method ValidateSystemFlag(value: string) returns (ok: bool)
    ensures ok <==> ValidSystemFlag(value)
  {
    var text := ValidateNonEmptyText(value);
    if !text {
      return false;
    }
    for i := 0 to |SYSTEM_FLAGS|
      invariant forall k :: 0 <= k < i ==> value != SYSTEM_FLAGS[k]
    {
      if value == SYSTEM_FLAGS[i] {
        return true;
      }
    }
    return false;
  }

  method ValidateUserKeyword(value: string) returns (ok: bool)
    ensures ok <==> ValidKeyword(value)
  {
    var text := ValidateNonEmptyText(value);
    if !text {
      return false;
    }
    if value[0] == '\\' {
      return false;
    }
    for i := 0 to |value|
      invariant forall k :: 0 <= k < i ==> KeywordChar(value[k])
    {
      if !KeywordChar(value[i]) {
        return false;
      }
    }
    return true;
  }

  /** Validates and copies one list; system says which of the two validators applies. */
  method CopyTextVector(values: seq<string>, system: bool) returns (res: Option<seq<string>>)
    ensures res.Some? ==> res.value == values
    ensures res.Some? <==>
              (Distinct(values) && forall i :: 0 <= i < |values| ==>
                 if system then ValidSystemFlag(values[i]) else ValidKeyword(values[i]))
  {
    hide ValidSystemFlag, ValidKeyword;
    for i := 0 to |values|
      invariant Distinct(values[..i])
      invariant forall k :: 0 <= k < i ==> if system then ValidSystemFlag(values[k]) else ValidKeyword(values[k])
    {
      var ok;
      if system {
        ok := ValidateSystemFlag(values[i]);
      } else {
        ok := ValidateUserKeyword(values[i]);
      }
      if !ok {
        return None;
      }
      for j := 0 to i
        invariant forall k :: 0 <= k < j ==> values[k] != values[i]
      {
        if values[j] == values[i] {
          return None;
        }
      }
    }
    assert values[..|values|] == values;
    var copy: seq<string> := [];
    for i := 0 to |values|
      invariant copy == values[..i]
    {
      copy := copy + [values[i]];
    }
    return Some(copy);
  }

  /** What the update request lets through is recoverable from the event text. */
  lemma ValidListsAreRecoverable(flags: seq<string>, keywords: seq<string>)
    requires ValidLists(flags, keywords)
    ensures Recoverable(flags) && Recoverable(keywords)
  {
    forall i | 0 <= i < |flags| ensures ' ' !in flags[i] && flags[i] != "" {
      assert ValidSystemFlag(flags[i]);
    }
    forall i | 0 <= i < |keywords| ensures ' ' !in keywords[i] && keywords[i] != "" {
      assert ValidKeyword(keywords[i]);
    }
    assert [""][0] == "";
  }
}
