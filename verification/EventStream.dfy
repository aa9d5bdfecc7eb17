/**
 * The cursor-driven mail event stream over a growing journal. A client starts at (0, 0),
 * asks for the next event and feeds back the offset and sequence printed in it, while
 * other threads append records and make them durable.
 */
module EventStream {
  import opened Basics
  import opened EventText

  const HEADER_SIZE := 64

  // ----- the journal -----

  /** What a record holds: a payload of a streamed type, one that does not decode, or another type. */
  datatype Stored = Decodable(account: string, body: Body) | Undecodable(kind: Kind) | Unstreamed(name: string)

  datatype Record = Record(offset: nat, sequence: nat, size: nat, stored: Stored)

  function EndOffset(j: seq<Record>): nat
  {
    if j == [] then 0 else j[|j| - 1].offset + HEADER_SIZE + j[|j| - 1].size
  }

  /** The first record is at offset 0 with sequence 1; each next one follows the last. */
  predicate WellFormed(j: seq<Record>)
  {
    forall k :: 0 <= k < |j| ==> j[k].offset == EndOffset(j[..k]) && j[k].sequence == k + 1
  }

  lemma {:induction false} OffsetsIncrease(j: seq<Record>, i: nat, k: nat)
    requires WellFormed(j) && i < k < |j|
    ensures j[i].offset < j[k].offset
  {
    assert j[k].offset == EndOffset(j[..k]) && j[..k][k - 1] == j[k - 1];
    if i < k - 1 {
      OffsetsIncrease(j, i, k - 1);
    }
  }

  // ----- one request -----

  datatype Request = Request(account: string, eventType: Option<string>, afterOffset: nat, afterSequence: nat)

  function StoredType(r: Stored): string
  {
    match r
    case Decodable(_, body) => TypeName(KindOf(body))
    case Undecodable(kind) => TypeName(kind)
    case Unstreamed(name) => name
  }

  predicate TypeMatches(r: Record, eventType: Option<string>)
  {
    eventType.None? || eventType.value == StoredType(r.stored)
  }

  predicate Matches(r: Record, req: Request)
  {
    !(req.afterSequence != 0 && r.offset <= req.afterOffset) && TypeMatches(r, req.eventType)
  }

  /** What projecting a record for an account gives. */
  datatype Projection = Skip | Text(text: string) | Bad

  function Project(r: Record, account: string): Projection
  {
    match r.stored
    case Unstreamed(_) => Skip
    case Undecodable(_) => Bad
    case Decodable(owner, body) =>
      if owner != account then Skip else Text(Print(Event(r.offset, r.sequence, account, body)))
  }

  datatype Outcome = NextEvent(offset: nat, text: string) | EndOfStream | InvalidData(offset: nat)

  function Next(rs: seq<Record>, req: Request): Outcome
  {
    if rs == [] then EndOfStream
    else if !Matches(rs[0], req) then Next(rs[1..], req)
    else
      match Project(rs[0], req.account)
      case Bad => InvalidData(rs[0].offset)
      case Text(text) => NextEvent(rs[0].offset, text)
      case Skip => Next(rs[1..], req)
  }

  /** One request: read the durable records until one projects or fails to decode. */
  method ReadNextMatchingJournalEvent(rs: seq<Record>, req: Request) returns (out: Outcome)
    ensures out == Next(rs, req)
  {
    hide Print, TypeName, KindOf;
    var i := 0;
    while i < |rs|
      invariant i <= |rs|
      invariant Next(rs, req) == Next(rs[i..], req)
    {
      assert rs[i..][0] == rs[i] && rs[i..][1..] == rs[i + 1..];
      if Matches(rs[i], req) {
        match rs[i].stored {
          case Undecodable(_) =>
            return InvalidData(rs[i].offset);
          case Unstreamed(_) =>
          case Decodable(owner, body) =>
            if owner == req.account {
              var text := PrintEvent(Event(rs[i].offset, rs[i].sequence, owner, body));
              return NextEvent(rs[i].offset, text);
            }
        }
      }
      i := i + 1;
    }
    return EndOfStream;
  }

  // ----- the account's stream -----

  /** A record's part in the stream of one account and type filter, whatever the cursor. */
  function Part(r: Record, account: string, eventType: Option<string>): Projection
  {
    if TypeMatches(r, eventType) then Project(r, account) else Skip
  }

  function Texts(rs: seq<Record>, account: string, eventType: Option<string>): seq<string>
  {
    if rs == [] then []
    else
      var part := Part(rs[0], account, eventType);
      (if part.Text? then [part.text] else []) + Texts(rs[1..], account, eventType)
  }

  /** How many leading records neither print nor fail. */
  function Quiet(rs: seq<Record>, account: string, eventType: Option<string>): (n: nat)
    ensures n <= |rs|
    ensures n < |rs| ==> !Part(rs[n], account, eventType).Skip?
    ensures forall k :: 0 <= k < n ==> Part(rs[k], account, eventType).Skip?
  {
    if rs == [] || !Part(rs[0], account, eventType).Skip? then 0 else 1 + Quiet(rs[1..], account, eventType)
  }

  /** The records before the first one that should stream but does not decode. */
  function Readable(rs: seq<Record>, account: string, eventType: Option<string>): (n: nat)
    ensures n <= |rs|
    ensures n < |rs| ==> Part(rs[n], account, eventType).Bad?
    ensures forall k :: 0 <= k < n ==> !Part(rs[k], account, eventType).Bad?
  {
    if rs == [] || Part(rs[0], account, eventType).Bad? then 0 else 1 + Readable(rs[1..], account, eventType)
  }

  lemma {:induction false} TextsConcat(a: seq<Record>, b: seq<Record>, account: string, eventType: Option<string>)
    ensures Texts(a + b, account, eventType) == Texts(a, account, eventType) + Texts(b, account, eventType)
  {
    hide Part;
    if a == [] {
      assert a + b == b;
    } else {
      assert (a + b)[0] == a[0] && (a + b)[1..] == a[1..] + b;
      TextsConcat(a[1..], b, account, eventType);
    }
  }

  lemma {:induction false} QuietHasNoTexts(rs: seq<Record>, account: string, eventType: Option<string>)
    requires forall k :: 0 <= k < |rs| ==> Part(rs[k], account, eventType).Skip?
    ensures Texts(rs, account, eventType) == []
  {
    hide Part;
    if rs != [] {
      QuietHasNoTexts(rs[1..], account, eventType);
    }
  }

  // ----- the cursor -----

  /** The cursor of a client that has read the first p records. */
  predicate CursorAt(j: seq<Record>, p: nat, req: Request)
  {
    if p == 0 then req.afterSequence == 0
    else p <= |j| && req.afterOffset == j[p - 1].offset && req.afterSequence == j[p - 1].sequence
  }

  lemma {:induction false} NextSkips(rs: seq<Record>, n: nat, req: Request)
    requires n <= |rs|
    requires forall k :: 0 <= k < n ==> !Matches(rs[k], req) || Project(rs[k], req.account).Skip?
    ensures Next(rs, req) == Next(rs[n..], req)
    decreases n
  {
    hide Project, Matches;
    if n > 0 {
      NextSkips(rs[1..], n - 1, req);
      assert rs[1..][n - 1..] == rs[n..];
    } else {
      assert rs[0..] == rs;
    }
  }

  /** A request sees exactly the records after its cursor. */
  lemma CursorSelects(j: seq<Record>, p: nat, req: Request, k: nat)
    requires WellFormed(j) && CursorAt(j, p, req) && k < |j|
    ensures Matches(j[k], req) <==> p <= k && TypeMatches(j[k], req.eventType)
  {
    hide TypeMatches;
    if 0 < p {
      if k < p - 1 {
        OffsetsIncrease(j, k, p - 1);
      } else if p <= k {
        OffsetsIncrease(j, p - 1, k);
      }
    }
  }

  /** The answer depends on the first record after the cursor that prints or fails. */
  lemma NextAfterCursor(j: seq<Record>, p: nat, req: Request)
    requires WellFormed(j) && p <= |j| && CursorAt(j, p, req)
    ensures var i := p + Quiet(j[p..], req.account, req.eventType);
            Next(j, req) ==
            if i == |j| then EndOfStream
            else
              match Part(j[i], req.account, req.eventType)
              case Text(text) => NextEvent(j[i].offset, text)
              case _ => InvalidData(j[i].offset)
  {
    hide Project, TypeMatches, CursorAt, WellFormed, Matches;
    var n := Quiet(j[p..], req.account, req.eventType);
    var i := p + n;
    forall k | 0 <= k < i ensures !Matches(j[k], req) || Project(j[k], req.account).Skip? {
      CursorSelects(j, p, req, k);
      if p <= k {
        assert j[p..][k - p] == j[k];
      }
    }
    NextSkips(j, i, req);
    if i < |j| {
      assert j[i..][0] == j[i] == j[p..][n];
      CursorSelects(j, p, req, i);
    }
  }

  // ----- runs -----

  /** pos is a history of how many records the cursor covers. */
  datatype Client = Client(account: string, eventType: Option<string>, afterOffset: nat, afterSequence: nat,
                           received: seq<string>, pos: nat)

  datatype State = State(journal: seq<Record>, durable: nat, client: Client)

  datatype Op = Append(size: nat, stored: Stored) | Sync | Poll

  function RequestOf(c: Client): Request
  {
    Request(c.account, c.eventType, c.afterOffset, c.afterSequence)
  }

  function Durable(s: State): seq<Record>
  {
    if s.durable <= |s.journal| then s.journal[..s.durable] else s.journal
  }

  /** The answer to the client's next request. */
  function Answer(s: State): Outcome
  {
    Next(Durable(s), RequestOf(s.client))
  }

  /** The history variable after one more event; nothing else depends on it. */
  function NextPos(s: State): nat
  {
    var c := s.client;
    if c.pos <= s.durable <= |s.journal| then
      c.pos + Quiet(s.journal[c.pos..s.durable], c.account, c.eventType) + 1
    else c.pos
  }

  function Receive(c: Client, text: string, pos: nat): Client
  {
    var cursor := ParseCursor(text);
    if cursor.None? then c
    else c.(afterOffset := cursor.value.0, afterSequence := cursor.value.1, received := c.received + [text],
            pos := pos)
  }

  function Step(s: State, op: Op): State
  {
    match op
    case Append(size, stored) =>
      s.(journal := s.journal + [Record(EndOffset(s.journal), |s.journal| + 1, size, stored)])
    case Sync => s.(durable := |s.journal|)
    case Poll =>
      var out := Answer(s);
      if out.NextEvent? then s.(client := Receive(s.client, out.text, NextPos(s))) else s
  }

  function Init(account: string, eventType: Option<string>): State
  {
    State([], 0, Client(account, eventType, 0, 0, [], 0))
  }

  /** The client has read a prefix of the durable records, and received exactly what it prints. */
  predicate Safe(s: State)
  {
    var c := s.client;
    && WellFormed(s.journal) && c.pos <= s.durable <= |s.journal|
    && CursorAt(s.journal, c.pos, RequestOf(c))
    && c.received == Texts(s.journal[..c.pos], c.account, c.eventType)
    && forall k :: 0 <= k < c.pos ==> !Part(s.journal[k], c.account, c.eventType).Bad?
  }

  lemma WellFormedPrefix(j: seq<Record>, n: nat)
    requires WellFormed(j) && n <= |j|
    ensures WellFormed(j[..n])
  {
    forall k | 0 <= k < n ensures j[..n][k].offset == EndOffset(j[..n][..k]) && j[..n][k].sequence == k + 1 {
      assert j[..n][..k] == j[..k];
    }
  }

  lemma WellFormedAppend(j: seq<Record>, size: nat, stored: Stored)
    requires WellFormed(j)
    ensures WellFormed(j + [Record(EndOffset(j), |j| + 1, size, stored)])
  {
    var t := j + [Record(EndOffset(j), |j| + 1, size, stored)];
    forall k | 0 <= k < |t| ensures t[k].offset == EndOffset(t[..k]) && t[k].sequence == k + 1 {
      assert t[..k] == j[..k];
      if k == |j| {
        assert j[..k] == j;
      }
    }
  }

  /** What one request answers in a safe state. */
  lemma PollAnswers(s: State)
    requires Safe(s)
    ensures var c := s.client;
            var i := c.pos + Quiet(s.journal[c.pos..s.durable], c.account, c.eventType);
            && i <= s.durable
            && Answer(s) ==
               if i == s.durable then EndOfStream
               else
                 match Part(s.journal[i], c.account, c.eventType)
                 case Text(text) => NextEvent(s.journal[i].offset, text)
                 case _ => InvalidData(s.journal[i].offset)
  {
    hide WellFormed, Part, Texts, CursorAt, Quiet, Next;
    var c := s.client;
    var j := s.journal[..s.durable];
    WellFormedPrefix(s.journal, s.durable);
    CursorAtPrefix(s.journal, s.durable, c.pos, RequestOf(c));
    assert j[c.pos..] == s.journal[c.pos..s.durable];
    NextAfterCursor(j, c.pos, RequestOf(c));
    var i := c.pos + Quiet(j[c.pos..], c.account, c.eventType);
    assert i < s.durable ==> j[i] == s.journal[i];
  }

  lemma CursorAtPrefix(j: seq<Record>, n: nat, p: nat, req: Request)
    requires p <= n <= |j| && CursorAt(j, p, req)
    ensures CursorAt(j[..n], p, req)
  {
  }

  lemma PollKeepsSafe(s: State)
    requires Safe(s)
    ensures Safe(Step(s, Poll))
  {
    hide WellFormed, Texts, Print, ParseCursor, Next, Answer, Quiet;
    PollAnswers(s);
    var c := s.client;
    var j := s.journal;
    var rest := j[c.pos..s.durable];
    var n := Quiet(rest, c.account, c.eventType);
    var i := c.pos + n;
    if Answer(s).NextEvent? {
      assert rest[n] == j[i];
      CursorReadsBack(Event(j[i].offset, j[i].sequence, c.account, j[i].stored.body));
      TextsGrow(j, c.pos, n, c.account, c.eventType);
      assert forall k :: c.pos <= k < i ==> rest[k - c.pos] == j[k];
      SequenceNotZero(j, i);
    }
  }

  lemma SequenceNotZero(j: seq<Record>, i: nat)
    requires WellFormed(j) && i < |j|
    ensures j[i].sequence != 0
  {
  }

  lemma TextsGrow(j: seq<Record>, p: nat, n: nat, account: string, eventType: Option<string>)
    requires p + n < |j| && Part(j[p + n], account, eventType).Text?
    requires forall k :: p <= k < p + n ==> Part(j[k], account, eventType).Skip?
    ensures Texts(j[..p + n + 1], account, eventType) ==
            Texts(j[..p], account, eventType) + [Part(j[p + n], account, eventType).text]
  {
    hide Part;
    var quiet := j[p..p + n];
    forall k | 0 <= k < n ensures Part(quiet[k], account, eventType).Skip? {
      assert quiet[k] == j[p + k];
    }
    QuietHasNoTexts(quiet, account, eventType);
    TextsConcat(j[..p], quiet, account, eventType);
    TextsConcat(j[..p] + quiet, [j[p + n]], account, eventType);
    assert j[..p + n + 1] == j[..p] + quiet + [j[p + n]];
    var one := [j[p + n]];
    assert one[1..] == [] && Texts(one[1..], account, eventType) == [];
  }

  lemma StepKeepsSafe(s: State, op: Op)
    requires Safe(s)
    ensures Safe(Step(s, op))
  {
    hide Part, Texts, Next, Receive;
    match op
    case Append(size, stored) =>
      WellFormedAppend(s.journal, size, stored);
      assert Step(s, op).journal[..s.client.pos] == s.journal[..s.client.pos];
    case Sync =>
    case Poll => PollKeepsSafe(s);
  }

  function Run(s: State, ops: seq<Op>): State
    decreases |ops|
  {
    if ops == [] then s else Run(Step(s, ops[0]), ops[1..])
  }

  lemma {:induction false} RunKeepsSafe(s: State, ops: seq<Op>)
    requires Safe(s)
    ensures Safe(Run(s, ops))
    decreases |ops|
  {
    hide Step, Safe;
    if ops != [] {
      StepKeepsSafe(s, ops[0]);
      RunKeepsSafe(Step(s, ops[0]), ops[1..]);
    }
  }

  /** The events the account can be sent: those before any record that does not decode. */
  function Available(s: State): seq<string>
  {
    var c, rs := s.client, Durable(s);
    Texts(rs[..Readable(rs, c.account, c.eventType)], c.account, c.eventType)
  }

  lemma TextsOfPrefix(rs: seq<Record>, p: nat, n: nat, account: string, eventType: Option<string>)
    requires p <= n <= |rs|
    ensures Texts(rs[..p], account, eventType) <= Texts(rs[..n], account, eventType)
  {
    assert rs[..n] == rs[..p] + rs[p..n];
    TextsConcat(rs[..p], rs[p..n], account, eventType);
  }

  /** The right answer for a client that holds what it received. */
  predicate Expected(s: State, out: Outcome)
  {
    var c, rs, all := s.client, Durable(s), Available(s);
    var n := Readable(rs, c.account, c.eventType);
    && c.received <= all
    && match out
       case NextEvent(_, text) => |c.received| < |all| && text == all[|c.received|]
       case InvalidData(offset) => c.received == all && n < |rs| && offset == rs[n].offset
       case EndOfStream => c.received == all && n == |rs|
  }

  /** What is left after p records begins with the first record that prints or fails. */
  lemma RestOfStream(rs: seq<Record>, p: nat, account: string, eventType: Option<string>)
    requires p <= |rs| && forall k :: 0 <= k < p ==> !Part(rs[k], account, eventType).Bad?
    ensures var i, n := p + Quiet(rs[p..], account, eventType), Readable(rs, account, eventType);
            var had, all := Texts(rs[..p], account, eventType), Texts(rs[..n], account, eventType);
            && had <= all
            && if i < |rs| && Part(rs[i], account, eventType).Text?
               then |had| < |all| && all[|had|] == Part(rs[i], account, eventType).text
               else n == i && had == all
  {
    hide Part, Texts, Quiet, Readable;
    var quiet, n := Quiet(rs[p..], account, eventType), Readable(rs, account, eventType);
    var i := p + quiet;
    assert forall k :: p <= k < |rs| ==> rs[p..][k - p] == rs[k];
    if i < |rs| && Part(rs[i], account, eventType).Text? {
      TextsGrow(rs, p, quiet, account, eventType);
      TextsOfPrefix(rs, i + 1, n, account, eventType);
    } else {
      QuietTail(rs, p, i, account, eventType);
    }
  }

  /** In a safe state the client holds a prefix of what is available and is sent the next one;
      it sees the end exactly when it holds all and every durable record decodes. */
  lemma SafeAnswers(s: State)
    requires Safe(s)
    ensures Expected(s, Answer(s))
  {
    hide Part, Texts, Next, WellFormed, CursorAt, Quiet, Readable, Answer;
    var c, rs := s.client, Durable(s);
    assert rs[c.pos..] == s.journal[c.pos..s.durable];
    assert rs[..c.pos] == s.journal[..c.pos];
    PollAnswers(s);
    RestOfStream(rs, c.pos, c.account, c.eventType);
  }

  lemma QuietTail(rs: seq<Record>, p: nat, n: nat, account: string, eventType: Option<string>)
    requires p <= n <= |rs| && forall k :: p <= k < n ==> Part(rs[k], account, eventType).Skip?
    ensures Texts(rs[..n], account, eventType) == Texts(rs[..p], account, eventType)
  {
    hide Part;
    assert rs[..n] == rs[..p] + rs[p..n];
    TextsConcat(rs[..p], rs[p..n], account, eventType);
    QuietHasNoTexts(rs[p..n], account, eventType);
  }

  predicate StreamsInOrder(s: State, account: string, eventType: Option<string>)
  {
    s.client.received <= Texts(Durable(s), account, eventType) && Expected(s, Answer(s))
  }

  /** Over every interleaving of appends, syncs and requests: the events received are a prefix,
      each once and in order, of the account's projectable durable records; the next answer is
      the next of them, the end exactly when none is left, or the first undecodable record. */
  lemma EveryRunStreamsInOrder(account: string, eventType: Option<string>, ops: seq<Op>)
    ensures StreamsInOrder(Run(Init(account, eventType), ops), account, eventType)
  {
    var init := Init(account, eventType);
    assert Safe(init);
    hide Step, Part, Texts, Next, Safe, Answer;
    RunKeepsSafe(init, ops);
    RunKeepsClient(init, ops);
    var s := Run(init, ops);
    SafeAnswers(s);
    var rs := Durable(s);
    TextsOfPrefix(rs, Readable(rs, account, eventType), |rs|, account, eventType);
    assert rs[..|rs|] == rs;
  }

  lemma {:induction false} RunKeepsClient(s: State, ops: seq<Op>)
    ensures Run(s, ops).client.account == s.client.account
    ensures Run(s, ops).client.eventType == s.client.eventType
    decreases |ops|
  {
    hide Next, ParseCursor, Quiet;
    if ops != [] {
      RunKeepsClient(Step(s, ops[0]), ops[1..]);
    }
  }

  /** With every durable record decodable, the end is answered exactly when nothing is left. */
  lemma EndMeansNothingLeft(account: string, eventType: Option<string>, ops: seq<Op>)
    requires var rs := Durable(Run(Init(account, eventType), ops));
             forall k :: 0 <= k < |rs| ==> !rs[k].stored.Undecodable?
    ensures var s := Run(Init(account, eventType), ops);
            Answer(s) == EndOfStream <==> s.client.received == Texts(Durable(s), account, eventType)
  {
    hide Run, Texts, Next, TypeMatches;
    EveryRunStreamsInOrder(account, eventType, ops);
    RunKeepsClient(Init(account, eventType), ops);
    var rs := Durable(Run(Init(account, eventType), ops));
    assert Readable(rs, account, eventType) == |rs|;
    assert rs[..|rs|] == rs;
  }

  /** As many requests as there are events left deliver them all. */
  lemma {:induction false} PollingCatchesUp(s: State, polls: nat)
    requires Safe(s) && polls >= |Available(s)| - |s.client.received|
    ensures Run(s, seq(polls, _ => Poll)).client.received == Available(s)
    decreases polls
  {
    hide Texts, Next, Readable, Quiet, WellFormed, CursorAt;
    SafeAnswers(s);
    if polls > 0 {
      PollGains(s);
      StepKeepsSafe(s, Poll);
      PollingCatchesUp(Step(s, Poll), polls - 1);
      assert seq(polls, _ => Poll)[1..] == seq(polls - 1, _ => Poll);
    }
  }

  lemma PollGains(s: State)
    requires Safe(s)
    ensures Available(Step(s, Poll)) == Available(s)
    ensures var c := s.client;
            Step(s, Poll).client.received ==
            if |c.received| < |Available(s)| then c.received + [Available(s)[|c.received|]] else c.received
  {
    hide Texts, Next, Readable, Quiet, WellFormed, CursorAt, Print, ParseCursor;
    SafeAnswers(s);
    PollAnswers(s);
    if Answer(s).NextEvent? {
      var c := s.client;
      var i := c.pos + Quiet(s.journal[c.pos..s.durable], c.account, c.eventType);
      var r := s.journal[i];
      CursorReadsBack(Event(r.offset, r.sequence, c.account, r.stored.body));
    }
  }

  /** No event is received twice: each text names its own offset. */
  lemma ReceivedOnce(account: string, eventType: Option<string>, ops: seq<Op>)
    ensures Distinct(Run(Init(account, eventType), ops).client.received)
  {
    assert Safe(Init(account, eventType));
    hide Step, Texts, Part;
    RunKeepsSafe(Init(account, eventType), ops);
    var s := Run(Init(account, eventType), ops);
    WellFormedPrefix(s.journal, s.client.pos);
    TextsDistinct(s.journal[..s.client.pos], s.client.account, s.client.eventType);
  }

  lemma {:induction false} TextsNameRecords(rs: seq<Record>, account: string, eventType: Option<string>, t: string)
    requires t in Texts(rs, account, eventType)
    ensures exists k :: 0 <= k < |rs| && ParseCursor(t) == Some((rs[k].offset, rs[k].sequence))
  {
    hide Print, ParseCursor;
    var part := Part(rs[0], account, eventType);
    if part.Text? && t == part.text {
      CursorReadsBack(Event(rs[0].offset, rs[0].sequence, account, rs[0].stored.body));
    } else {
      TextsNameRecords(rs[1..], account, eventType, t);
      var k :| 0 <= k < |rs[1..]| && ParseCursor(t) == Some((rs[1..][k].offset, rs[1..][k].sequence));
      assert rs[k + 1] == rs[1..][k];
    }
  }

  lemma DistinctConcat(a: seq<string>, b: seq<string>)
    requires Distinct(a) && Distinct(b) && forall t :: t in a ==> t !in b
    ensures Distinct(a + b)
  {
    var c := a + b;
    forall i, k | 0 <= i < k < |c| ensures c[i] != c[k] {
      if i < |a| && |a| <= k {
        assert c[i] == a[i] && c[k] == b[k - |a|] && a[i] in a && b[k - |a|] in b;
      }
    }
  }

  lemma {:induction false} TextsDistinct(rs: seq<Record>, account: string, eventType: Option<string>)
    requires WellFormed(rs)
    ensures Distinct(Texts(rs, account, eventType))
  {
    hide Part, WellFormed, ParseCursor;
    if rs != [] {
      var n := |rs| - 1;
      WellFormedPrefix(rs, n);
      TextsDistinct(rs[..n], account, eventType);
      assert rs == rs[..n] + [rs[n]];
      TextsConcat(rs[..n], [rs[n]], account, eventType);
      forall t | t in Texts(rs[..n], account, eventType) && t in Texts([rs[n]], account, eventType) ensures false {
        TextsNameRecords(rs[..n], account, eventType, t);
        TextsNameRecords([rs[n]], account, eventType, t);
        var k :| 0 <= k < n && ParseCursor(t) == Some((rs[..n][k].offset, rs[..n][k].sequence));
        OffsetsIncrease(rs, k, n);
      }
      assert |Texts([rs[n]], account, eventType)| <= 1 by {
        assert [rs[n]][1..] == [] && Texts([], account, eventType) == [];
      }
      DistinctConcat(Texts(rs[..n], account, eventType), Texts([rs[n]], account, eventType));
    }
  }

  // ----- whose events, and in which order -----

  /** The record is a decodable one of the account, of the type asked for, and t is its text. */
  predicate EventOf(r: Record, account: string, eventType: Option<string>, t: string)
  {
    && r.stored.Decodable? && r.stored.account == account
    && (eventType.Some? ==> eventType.value == TypeName(KindOf(r.stored.body)))
    && t == Print(Event(r.offset, r.sequence, account, r.stored.body))
  }

  /** The stream holds the texts of exactly the account's own decodable records of that type. */
  lemma {:induction false} TextsAreOwnEvents(rs: seq<Record>, account: string, eventType: Option<string>, t: string)
    ensures t in Texts(rs, account, eventType) <==> exists k :: 0 <= k < |rs| && EventOf(rs[k], account, eventType, t)
  {
    hide Print, TypeName, KindOf;
    if rs != [] {
      TextsAreOwnEvents(rs[1..], account, eventType, t);
      var part := Part(rs[0], account, eventType);
      assert (part.Text? && part.text == t) <==> EventOf(rs[0], account, eventType, t);
      if k :| 0 <= k < |rs| && EventOf(rs[k], account, eventType, t) {
        if k > 0 {
          assert rs[1..][k - 1] == rs[k];
        }
      }
      if k :| 0 <= k < |rs[1..]| && EventOf(rs[1..][k], account, eventType, t) {
        assert rs[k + 1] == rs[1..][k];
      }
    }
  }

  /** The texts of the stream come in the order of their offsets. */
  lemma {:induction false} TextsAscend(rs: seq<Record>, account: string, eventType: Option<string>)
    requires WellFormed(rs)
    ensures var ts := Texts(rs, account, eventType);
            && (forall i :: 0 <= i < |ts| ==> ParseCursor(ts[i]).Some?)
            && forall i, k :: 0 <= i < k < |ts| ==> ParseCursor(ts[i]).value.0 < ParseCursor(ts[k]).value.0
  {
    hide Part, WellFormed, ParseCursor;
    if rs != [] {
      var n := |rs| - 1;
      WellFormedPrefix(rs, n);
      TextsAscend(rs[..n], account, eventType);
      assert rs == rs[..n] + [rs[n]];
      TextsConcat(rs[..n], [rs[n]], account, eventType);
      var ts, last := Texts(rs[..n], account, eventType), Texts([rs[n]], account, eventType);
      assert |last| <= 1 by {
        assert [rs[n]][1..] == [] && Texts([], account, eventType) == [];
      }
      forall i | 0 <= i < |ts| ensures last != [] ==>
          ParseCursor(last[0]).Some? && ParseCursor(ts[i]).value.0 < ParseCursor(last[0]).value.0 {
        if last != [] {
          TextsNameRecords(rs[..n], account, eventType, ts[i]);
          TextsNameRecords([rs[n]], account, eventType, last[0]);
          var k :| 0 <= k < n && ParseCursor(ts[i]) == Some((rs[..n][k].offset, rs[..n][k].sequence));
          OffsetsIncrease(rs, k, n);
        }
      }
      if last != [] {
        TextsNameRecords([rs[n]], account, eventType, last[0]);
      }
    }
  }

  /** What stops a stream: the first record of the type asked for that does not decode. */
  lemma ReadableIsFirstUndecodable(rs: seq<Record>, account: string, eventType: Option<string>)
    ensures var n := Readable(rs, account, eventType);
            && (n < |rs| ==> Blocks(rs[n], eventType))
            && forall k :: 0 <= k < n ==> !Blocks(rs[k], eventType)
  {
    hide Print;
  }

  predicate Blocks(r: Record, eventType: Option<string>)
  {
    r.stored.Undecodable? && (eventType.Some? ==> eventType.value == TypeName(r.stored.kind))
  }

  /** On every run the client has received exactly the events of its own account, of the type it
      asks for, up to its cursor, in the order of their offsets. */
  lemma ReceivedAreOwnEvents(account: string, eventType: Option<string>, ops: seq<Op>, t: string)
    ensures var s := Run(Init(account, eventType), ops);
            t in s.client.received <==>
            exists k :: 0 <= k < |s.journal| && s.client.afterSequence != 0 &&
              s.journal[k].offset <= s.client.afterOffset && EventOf(s.journal[k], account, eventType, t)
    ensures var ts := Run(Init(account, eventType), ops).client.received;
            && (forall i :: 0 <= i < |ts| ==> ParseCursor(ts[i]).Some?)
            && forall i, k :: 0 <= i < k < |ts| ==> ParseCursor(ts[i]).value.0 < ParseCursor(ts[k]).value.0
  {
    assert Safe(Init(account, eventType));
    hide Step, Texts, Part, EventOf, ParseCursor;
    RunKeepsSafe(Init(account, eventType), ops);
    RunKeepsClient(Init(account, eventType), ops);
    var s := Run(Init(account, eventType), ops);
    var read := s.journal[..s.client.pos];
    WellFormedPrefix(s.journal, s.client.pos);
    TextsAscend(read, account, eventType);
    TextsAreOwnEvents(read, account, eventType, t);
    forall k | 0 <= k < |s.journal|
      ensures k < s.client.pos <==> s.client.afterSequence != 0 && s.journal[k].offset <= s.client.afterOffset
    {
      CursorCovers(s, k);
    }
    if k :| 0 <= k < |read| && EventOf(read[k], account, eventType, t) {
      assert s.journal[k] == read[k];
    }
    if k :| 0 <= k < |s.journal| && s.client.afterSequence != 0 &&
            s.journal[k].offset <= s.client.afterOffset && EventOf(s.journal[k], account, eventType, t) {
      assert read[k] == s.journal[k];
    }
  }

  lemma CursorCovers(s: State, k: nat)
    requires Safe(s) && k < |s.journal|
    ensures k < s.client.pos <==> s.client.afterSequence != 0 && s.journal[k].offset <= s.client.afterOffset
  {
    hide Texts, Part;
    var p := s.client.pos;
    if 0 < p {
      SequenceNotZero(s.journal, p - 1);
      if k < p - 1 {
        OffsetsIncrease(s.journal, k, p - 1);
      } else if p <= k {
        OffsetsIncrease(s.journal, p - 1, k);
      }
    }
  }

  /** The next thing for this client is record i, which does not decode. */
  predicate StalledAt(s: State, i: nat)
  {
    var c := s.client;
    && Safe(s) && c.pos <= i < s.durable
    && Part(s.journal[i], c.account, c.eventType).Bad?
    && forall k :: c.pos <= k < i ==> Part(s.journal[k], c.account, c.eventType).Skip?
  }

  lemma StalledAnswer(s: State, i: nat)
    requires StalledAt(s, i)
    ensures Answer(s) == InvalidData(s.journal[i].offset)
  {
    hide Part, Texts, Next, WellFormed, CursorAt, Answer;
    PollAnswers(s);
    var rest := s.journal[s.client.pos..s.durable];
    assert forall k :: 0 <= k < |rest| ==> rest[k] == s.journal[s.client.pos + k];
  }

  lemma StallStays(s: State, i: nat, op: Op)
    requires StalledAt(s, i)
    ensures StalledAt(Step(s, op), i)
    ensures Step(s, op).client == s.client && Step(s, op).journal[i] == s.journal[i]
  {
    hide Part, Next, Answer, WellFormed, Texts, CursorAt;
    StepKeepsSafe(s, op);
    StalledAnswer(s, i);
  }

  /** Once a record that does not decode is next, whichever account it is of, no later append,
      sync or request ever moves the client on. */
  lemma {:induction false} UndecodableRecordStallsForever(s: State, ops: seq<Op>)
    requires Safe(s) && Answer(s).InvalidData?
    ensures Answer(Run(s, ops)) == Answer(s) && Run(s, ops).client == s.client
  {
    hide Part, Texts, Next, WellFormed, CursorAt, Answer;
    PollAnswers(s);
    var rest := s.journal[s.client.pos..s.durable];
    var i := s.client.pos + Quiet(rest, s.client.account, s.client.eventType);
    assert forall k :: 0 <= k < |rest| ==> rest[k] == s.journal[s.client.pos + k];
    StalledRun(s, i, ops);
  }

  lemma {:induction false} StalledRun(s: State, i: nat, ops: seq<Op>)
    requires StalledAt(s, i)
    ensures Run(s, ops).client == s.client && Answer(Run(s, ops)) == InvalidData(s.journal[i].offset)
    decreases |ops|
  {
    hide Step, Answer;
    if ops == [] {
      StalledAnswer(s, i);
    } else {
      StallStays(s, i, ops[0]);
      StalledRun(Step(s, ops[0]), i, ops[1..]);
    }
  }

  /** A record that does not decode, then an event of account u, both durable. */
  function StallingRun(): seq<Op>
  {
    [Append(1, Undecodable(KDelivered)), Append(1, Decodable("u", Delivered(None, 0, 0))), Sync]
  }

  /** The account has an event to receive, and every request is answered with an error. */
  lemma StreamCanStall(polls: nat)
    ensures var s := Run(Run(Init("u", None), StallingRun()), seq(polls, _ => Poll));
            Answer(s) == InvalidData(0) && s.client.received == [] && |Texts(Durable(s), "u", None)| == 1
  {
    hide Print, Next, Answer;
    var ops := StallingRun();
    assert ops[1..] == [ops[1], ops[2]] && [ops[1], ops[2]][1..] == [ops[2]] && [ops[2]][1..] == [];
    var s0 := Init("u", None);
    var s1 := Step(s0, ops[0]);
    var s2 := Step(s1, ops[1]);
    var s3 := Step(s2, ops[2]);
    assert Run(s2, [ops[2]]) == Run(s3, []) == s3;
    assert Run(s1, [ops[1], ops[2]]) == s3;
    assert Run(s0, ops) == s3;
    RunKeepsSafe(s0, ops);
    assert StalledAt(s3, 0);
    var more := seq(polls, _ => Poll);
    StalledRun(s3, 0, more);
    PollsKeepJournal(s3, more);
    var rs := s3.journal;
    assert s3.journal[..s3.durable] == rs;
    assert rs[1..] == [rs[1]] && [rs[1]][1..] == [] && Texts([], "u", None) == [];
    assert |Texts([rs[1]], "u", None)| == 1;
  }

  lemma {:induction false} PollsKeepJournal(s: State, ops: seq<Op>)
    requires forall k :: 0 <= k < |ops| ==> ops[k].Poll?
    ensures Run(s, ops).journal == s.journal && Run(s, ops).durable == s.durable
    decreases |ops|
  {
    hide Next, Receive;
    if ops != [] {
      PollsKeepJournal(Step(s, ops[0]), ops[1..]);
    }
  }
}
