/**
 * Length-prefixed frames (big-endian 32-bit length, then the payload) and the session loop
 * that answers each request frame with one response frame.
 */
module FrameStream {
  import opened Basics

  const MAX_FRAME_SIZE := 4 * 1024 * 1024

  predicate ValidPayload(p: bytes)
  {
    0 < |p| <= MAX_FRAME_SIZE
  }

  predicate AllValid(ps: seq<bytes>)
  {
    forall i :: 0 <= i < |ps| ==> ValidPayload(ps[i])
  }

  // ----- frames -----

  function U32(n: nat): (r: bytes)
    requires n < 0x1_0000_0000
    ensures |r| == 4
  {
    [n / 16777216 % 256, n / 65536 % 256, n / 256 % 256, n % 256]
  }

  function ReadU32(b: bytes): (n: nat)
    requires |b| >= 4
    ensures n < 0x1_0000_0000
  {
    (b[0] as int) * 16777216 + (b[1] as int) * 65536 + (b[2] as int) * 256 + (b[3] as int)
  }

  lemma U32ReadsBack(n: nat, rest: bytes)
    requires n < 0x1_0000_0000
    ensures ReadU32(U32(n) + rest) == n
  {
    var a, b, c := n / 256, n / 65536, n / 16777216;
    assert a / 256 == b && b / 256 == c;
    assert c % 256 == c;
  }

  lemma U32WritesBack(b: bytes)
    requires |b| >= 4
    ensures U32(ReadU32(b)) == b[..4]
  {
    var n := ReadU32(b);
    assert n / 256 == (b[0] as int) * 65536 + (b[1] as int) * 256 + (b[2] as int);
    assert n / 65536 == (b[0] as int) * 256 + (b[1] as int);
    assert n / 16777216 == (b[0] as int);
  }

  function Frame(p: bytes): (r: bytes)
    requires ValidPayload(p)
    ensures |r| == 4 + |p|
  {
    U32(|p|) + p
  }

  /** A frame is the payload's length, most significant byte first, and the payload. */
  lemma FrameLayout(p: bytes)
    requires ValidPayload(p)
    ensures var f := Frame(p);
            && (f[0] as int) * 0x100_0000 + (f[1] as int) * 0x1_0000 + (f[2] as int) * 0x100 + (f[3] as int) == |p|
            && f[4..] == p
  {
    U32ReadsBack(|p|, p);
  }

  function Frames(ps: seq<bytes>): bytes
    requires AllValid(ps)
  {
    if ps == [] then [] else Frame(ps[0]) + Frames(ps[1..])
  }

  // ----- reading -----

  /** How a stream goes on after its last byte: it was closed, or reading fails. */
  datatype Ending = Closed | Fails

  datatype FrameError = Truncated | BadSize | IoError

  datatype ReadResult = Payload(payload: bytes, rest: bytes) | Eof | Failure(error: FrameError)

  function ReadFrame(b: bytes, ending: Ending): (r: ReadResult)
    ensures r.Payload? ==> |r.rest| < |b|
  {
    if |b| < 4 then
      if ending.Fails? then Failure(IoError) else if b == [] then Eof else Failure(Truncated)
    else
      var n := ReadU32(b);
      if n == 0 || n > MAX_FRAME_SIZE then Failure(BadSize)
      else if |b| - 4 < n then Failure(if ending.Fails? then IoError else Truncated)
      else Payload(b[4..4 + n], b[4 + n..])
  }

  /** All payloads of a stream and why reading stopped. */
  function ReadAll(b: bytes, ending: Ending): (r: (seq<bytes>, ReadResult))
    ensures !r.1.Payload?
    decreases |b|
  {
    match ReadFrame(b, ending)
    case Payload(p, rest) =>
      var (ps, end) := ReadAll(rest, ending);
      ([p] + ps, end)
    case end => ([], end)
  }

  lemma FrameReadsBack(p: bytes, rest: bytes, ending: Ending)
    requires ValidPayload(p)
    ensures ReadFrame(Frame(p) + rest, ending) == Payload(p, rest)
  {
    hide U32, ReadU32;
    var b := Frame(p) + rest;
    assert b == U32(|p|) + (p + rest);
    U32ReadsBack(|p|, p + rest);
    assert b[4..4 + |p|] == p && b[4 + |p|..] == rest;
  }

  /** A stream that is a strict prefix of one frame ends at the boundary or is an error. */
  lemma CutFrameEnds(p: bytes, n: nat)
    requires ValidPayload(p) && n < |Frame(p)|
    ensures ReadFrame(Frame(p)[..n], Closed) == if n == 0 then Eof else Failure(Truncated)
  {
    hide U32, ReadU32;
    var b := Frame(p)[..n];
    if n >= 4 {
      U32ReadsBack(|p|, p[..n - 4]);
      assert b == U32(|p|) + p[..n - 4];
    }
  }

  /** How many whole frames lie in the first n bytes. */
  function WholeFrames(ps: seq<bytes>, n: nat): (k: nat)
    requires AllValid(ps)
    ensures k <= |ps|
  {
    if ps == [] || n < |Frame(ps[0])| then 0 else 1 + WholeFrames(ps[1..], n - |Frame(ps[0])|)
  }

  lemma {:induction false} WholeFramesBound(ps: seq<bytes>, n: nat)
    requires AllValid(ps)
    ensures var k := WholeFrames(ps, n);
            |Frames(ps[..k])| <= n && (k < |ps| ==> n < |Frames(ps[..k + 1])|)
  {
    hide Frame, ValidPayload;
    var k := WholeFrames(ps, n);
    if k > 0 {
      WholeFramesBound(ps[1..], n - |Frame(ps[0])|);
      assert ps[..k][1..] == ps[1..][..k - 1];
      if k < |ps| {
        assert ps[..k + 1][1..] == ps[1..][..k];
      }
    } else if ps != [] {
      assert ps[..1][1..] == [] && Frames([]) == [];
    }
  }

  predicate CutReadsPrefix(ps: seq<bytes>, n: nat)
    requires AllValid(ps) && n <= |Frames(ps)|
  {
    var k := WholeFrames(ps, n);
    ReadAll(Frames(ps)[..n], Closed) == (ps[..k], if n == |Frames(ps[..k])| then Eof else Failure(Truncated))
  }

  /** Cutting the stream anywhere gives the whole frames before the cut, and then the end of
      the stream exactly when the cut is at a frame boundary, otherwise an error. */
  lemma {:induction false} CutStreamReadsPrefix(ps: seq<bytes>, n: nat)
    requires AllValid(ps) && n <= |Frames(ps)|
    ensures CutReadsPrefix(ps, n)
  {
    assert ReadFrame([], Closed) == Eof;
    hide Frame, ReadFrame, ValidPayload;
    var b := Frames(ps)[..n];
    if ps == [] {
      assert b == [] && ps[..0] == [];
    } else if n < |Frame(ps[0])| {
      assert b == Frame(ps[0])[..n] && ps[..0] == [];
      CutFrameEnds(ps[0], n);
    } else {
      var m := n - |Frame(ps[0])|;
      var k := WholeFrames(ps[1..], m);
      assert b == Frame(ps[0]) + Frames(ps[1..])[..m];
      FrameReadsBack(ps[0], Frames(ps[1..])[..m], Closed);
      CutStreamReadsPrefix(ps[1..], m);
      assert ps[..k + 1] == [ps[0]] + ps[1..][..k] && ps[..k + 1][1..] == ps[1..][..k];
    }
  }

  predicate StreamRecovered(ps: seq<bytes>)
    requires AllValid(ps)
  {
    ReadAll(Frames(ps), Closed) == (ps, Eof)
  }

  /** Frames read back as exactly the payloads written, then the end of the stream. */
  lemma StreamReadsBack(ps: seq<bytes>)
    requires AllValid(ps)
    ensures StreamRecovered(ps)
  {
    hide ReadAll;
    var n := |Frames(ps)|;
    CutStreamReadsPrefix(ps, n);
    WholeFramesBound(ps, n);
    assert Frames(ps)[..n] == Frames(ps);
    var k := WholeFrames(ps, n);
    if k < |ps| {
      FramesOfPrefix(ps, k + 1);
    }
    assert ps[..|ps|] == ps;
  }

  lemma {:induction false} FramesOfPrefix(ps: seq<bytes>, k: nat)
    requires AllValid(ps) && k <= |ps|
    ensures |Frames(ps[..k])| <= |Frames(ps)|
  {
    hide Frame, ValidPayload;
    if k > 0 {
      FramesOfPrefix(ps[1..], k - 1);
      assert ps[..k][1..] == ps[1..][..k - 1];
    }
  }

  lemma FrameWritesBack(b: bytes, ending: Ending)
    requires ReadFrame(b, ending).Payload?
    ensures var r := ReadFrame(b, ending); ValidPayload(r.payload) && b == Frame(r.payload) + r.rest
  {
    hide U32, ReadU32;
    U32WritesBack(b);
    var n := ReadU32(b);
    assert b == b[..4] + b[4..4 + n] + b[4 + n..];
  }

  /** Whatever the bytes, what is read is framed at their start; a stream that ends cleanly
      is exactly the frames of what was read. */
  lemma {:induction false} ReadIsFramed(b: bytes, ending: Ending)
    ensures AllValid(ReadAll(b, ending).0) && Frames(ReadAll(b, ending).0) <= b
    ensures ReadAll(b, ending).1.Eof? ==> ending.Closed? && b == Frames(ReadAll(b, ending).0)
    decreases |b|
  {
    hide Frame, ValidPayload;
    var r := ReadFrame(b, ending);
    if r.Payload? {
      FrameWritesBack(b, ending);
      ReadIsFramed(r.rest, ending);
      var (ps, _) := ReadAll(r.rest, ending);
      assert ([r.payload] + ps)[1..] == ps;
      assert Frames([r.payload] + ps) == Frame(r.payload) + Frames(ps);
    }
  }

  // ----- sessions -----

  /** The handler's answer to a request, given it and all earlier ones; None when it fails. */
  type Handler = seq<bytes> -> Option<bytes>

  /** The whole answers written, the part of one more that a failing output took, and success. */
  datatype Served = Served(answers: seq<bytes>, partial: bytes, ok: bool)

  /** b: the input left; past: the requests so far; room: how many bytes the output still takes. */
  function Serve(b: bytes, ending: Ending, handler: Handler, past: seq<bytes>, room: nat): (r: Served)
    ensures AllValid(r.answers)
    decreases |b|
  {
    match ReadFrame(b, ending)
    case Eof => Served([], [], true)
    case Failure(_) => Served([], [], false)
    case Payload(p, rest) =>
      var answer := handler(past + [p]);
      if answer.None? || !ValidPayload(answer.value) then Served([], [], false)
      else if |Frame(answer.value)| > room then Served([], Frame(answer.value)[..room], false)
      else
        var more := Serve(rest, ending, handler, past + [p], room - |Frame(answer.value)|);
        more.(answers := [answer.value] + more.answers)
  }

  /** answers[i] is the handler's answer to request i. */
  ghost predicate AnswersInOrder(handler: Handler, past: seq<bytes>, requests: seq<bytes>, answers: seq<bytes>)
  {
    && |answers| <= |requests|
    && forall i :: 0 <= i < |answers| ==> handler(past + requests[..i + 1]) == Some(answers[i])
  }

  /** Why the session stopped after its answers. */
  ghost predicate StopsRightly(handler: Handler, past: seq<bytes>, requests: seq<bytes>, end: ReadResult, room: nat,
                               s: Served)
    requires AllValid(s.answers)
  {
    var n, used := |s.answers|, |Frames(s.answers)|;
    && used <= room
    && if n == |requests| then s.partial == [] && (s.ok <==> end.Eof?)
       else
         && n < |requests| && !s.ok
         && var answer := handler(past + requests[..n + 1]);
            if answer.Some? && ValidPayload(answer.value)
            then used + |Frame(answer.value)| > room && s.partial == Frame(answer.value)[..room - used]
            else s.partial == []
  }

  lemma {:induction false} ServeIsRight(b: bytes, ending: Ending, handler: Handler, past: seq<bytes>, room: nat)
    ensures var (requests, end) := ReadAll(b, ending);
            var s := Serve(b, ending, handler, past, room);
            AnswersInOrder(handler, past, requests, s.answers) && StopsRightly(handler, past, requests, end, room, s)
    decreases |b|
  {
    hide Frame, ValidPayload, ReadFrame;
    var r := ReadFrame(b, ending);
    if r.Payload? {
      var (requests, end) := ReadAll(b, ending);
      var answer := handler(past + [r.payload]);
      assert past + requests[..1] == past + [r.payload];
      if answer.Some? && ValidPayload(answer.value) && |Frame(answer.value)| <= room {
        var room' := room - |Frame(answer.value)|;
        ServeIsRight(r.rest, ending, handler, past + [r.payload], room');
        var more := Serve(r.rest, ending, handler, past + [r.payload], room');
        OneMore(handler, past, r.payload, ReadAll(r.rest, ending).0, end, room', answer.value, more);
      }
    }
  }

  lemma OneMore(handler: Handler, past: seq<bytes>, p: bytes, requests: seq<bytes>, end: ReadResult, room: nat,
                answer: bytes, more: Served)
    requires handler(past + [p]) == Some(answer) && ValidPayload(answer) && AllValid(more.answers)
    requires AnswersInOrder(handler, past + [p], requests, more.answers)
    requires StopsRightly(handler, past + [p], requests, end, room, more)
    ensures AnswersInOrder(handler, past, [p] + requests, [answer] + more.answers)
    ensures StopsRightly(handler, past, [p] + requests, end, room + |Frame(answer)|,
                         more.(answers := [answer] + more.answers))
  {
    hide Frame, ValidPayload;
    var all := [p] + requests;
    assert ([answer] + more.answers)[1..] == more.answers;
    assert |Frames([answer] + more.answers)| == |Frame(answer)| + |Frames(more.answers)|;
    forall i | 0 <= i <= |requests| ensures past + all[..i + 1] == past + [p] + requests[..i] {
      assert all[..i + 1] == [p] + requests[..i];
    }
    forall i | 0 <= i < |[answer] + more.answers|
      ensures handler(past + all[..i + 1]) == Some(([answer] + more.answers)[i])
    {
      if i == 0 {
        assert past + all[..1] == past + [p];
      } else {
        assert past + all[..i + 1] == past + [p] + requests[..i];
      }
    }
  }

  /** Every session writes the frames of the handler's answers to a prefix of its requests, one
      for one and in order, and at most a strict part of the next frame when the output fails.
      It succeeds exactly when all requests are answered and the input ended at a boundary, and
      a peer reading the output gets exactly those answers. */
  lemma SessionAnswersPrefix(b: bytes, ending: Ending, handler: Handler, room: nat)
    ensures var (requests, end) := ReadAll(b, ending);
            var s := Serve(b, ending, handler, [], room);
            && AnswersInOrder(handler, [], requests, s.answers)
            && StopsRightly(handler, [], requests, end, room, s)
            && ReadAll(Frames(s.answers) + s.partial, Closed).0 == s.answers
  {
    hide ReadFrame, Frame;
    ServeIsRight(b, ending, handler, [], room);
    var (requests, end) := ReadAll(b, ending);
    var s := Serve(b, ending, handler, [], room);
    var n := |s.answers|;
    if s.partial == [] {
      assert Frames(s.answers) + [] == Frames(s.answers);
      StreamReadsBack(s.answers);
    } else {
      var next := handler([] + requests[..n + 1]).value;
      assert s.partial == Frame(next)[..|s.partial|];
      PartialReadsBack(s.answers, next, |s.partial|);
    }
  }

  lemma PartialReadsBack(ps: seq<bytes>, p: bytes, n: nat)
    requires AllValid(ps) && ValidPayload(p) && 0 < n < |Frame(p)|
    ensures ReadAll(Frames(ps) + Frame(p)[..n], Closed) == (ps, Failure(Truncated))
    decreases |ps|
  {
    hide Frame, ReadFrame, ValidPayload;
    if ps == [] {
      assert Frames(ps) + Frame(p)[..n] == Frame(p)[..n];
      CutFrameEnds(p, n);
    } else {
      PartialReadsBack(ps[1..], p, n);
      var rest := Frames(ps[1..]) + Frame(p)[..n];
      assert Frames(ps) + Frame(p)[..n] == Frame(ps[0]) + rest;
      FrameReadsBack(ps[0], rest, Closed);
      assert ps == [ps[0]] + ps[1..];
    }
  }

  // ----- the streams and the loop -----

  class InputStream {
    const data: bytes
    const ending: Ending
    var position: nat

    ghost predicate Valid()
      reads this
    {
      position <= |data|
    }

    ghost function Left(): bytes
      requires Valid()
      reads this
    {
      data[position..]
    }

    /** Reads n bytes, or what is left of a closed stream; None when reading fails. */
    method ReadAllBytes(n: nat) returns (chunk: Option<bytes>)
      requires Valid()
      modifies this`position
      ensures Valid()
      ensures |old(Left())| >= n ==> chunk == Some(old(Left())[..n]) && Left() == old(Left())[n..]
      ensures |old(Left())| < n ==> chunk == (if ending.Fails? then None else Some(old(Left()))) && Left() == []
    {
      assert |data| - position >= n ==>
        data[position..][..n] == data[position..position + n] && data[position..][n..] == data[position + n..];
      if |data| - position >= n {
        chunk := Some(data[position..position + n]);
        position := position + n;
      } else {
        chunk := if ending.Fails? then None else Some(data[position..]);
        position := |data|;
      }
    }

    method ReadPayloadOrEof() returns (r: Option<bytes>, eof: bool, ok: bool)
      requires Valid()
      modifies this`position
      ensures Valid()
      ensures match ReadFrame(old(Left()), ending)
              case Payload(p, rest) => ok && !eof && r == Some(p) && Left() == rest
              case Eof => ok && eof && r == None
              case Failure(_) => !ok && !eof
    {
      ghost var b := Left();
      assert |b| >= 4 ==> ReadU32(b[..4]) == ReadU32(b);
      hide ReadU32;
      var prefix := ReadAllBytes(4);
      if prefix.None? {
        return None, false, false;
      }
      if |prefix.value| == 0 {
        return None, true, true;
      }
      if |prefix.value| != 4 {
        return None, false, false;
      }
      var size := ReadU32(prefix.value);
      if size == 0 || size > MAX_FRAME_SIZE {
        return None, false, false;
      }
      var payload := ReadAllBytes(size);
      if payload.None? || |payload.value| != size {
        return None, false, false;
      }
      assert b[4..][..size] == b[4..4 + size] && b[4..][size..] == b[4 + size..];
      return payload, false, true;
    }
  }

  class OutputStream {
    var data: bytes
    var room: nat

    /** Writes everything, or what there is room for. */
    method WriteAll(chunk: bytes) returns (ok: bool)
      modifies this
      ensures ok <==> |chunk| <= old(room)
      ensures ok ==> data == old(data) + chunk && room == old(room) - |chunk|
      ensures !ok ==> data == old(data) + chunk[..old(room)]
    {
      if |chunk| <= room {
        data := data + chunk;
        room := room - |chunk|;
        return true;
      }
      data := data + chunk[..room];
      room := 0;
      return false;
    }

    method WritePayload(p: bytes) returns (ok: bool)
      modifies this
      ensures ok <==> ValidPayload(p) && |Frame(p)| <= old(room)
      ensures ok ==> data == old(data) + Frame(p) && room == old(room) - |Frame(p)|
      ensures !ok ==> data == old(data) + if ValidPayload(p) then Frame(p)[..old(room)] else []
    {
      hide U32;
      if |p| == 0 || |p| > MAX_FRAME_SIZE {
        assert data + [] == data;
        return false;
      }
      ok := WriteAll(U32(|p|) + p);
    }
  }

  method ProcessPayloads(input: InputStream, output: OutputStream, handler: Handler) returns (ok: bool)
    requires input.Valid()
    modifies input`position, output
    ensures var s := Serve(old(input.Left()), input.ending, handler, [], old(output.room));
            ok == s.ok && output.data == old(output.data) + Frames(s.answers) + s.partial
  {
    hide ReadFrame, Frame, ValidPayload, AllValid, Frames, Serve;
    NoFrames();
    ghost var whole := Serve(input.Left(), input.ending, handler, [], output.room);
    ghost var answers: seq<bytes> := [];
    var past: seq<bytes> := [];
    while true
      invariant input.Valid() && AllValid(answers)
      invariant output.data == old(output.data) + Frames(answers)
      invariant Follows(whole, answers, Serve(input.Left(), input.ending, handler, past, output.room))
      decreases |input.Left()|
    {
      ghost var b, room := input.Left(), output.room;
      ghost var left := Serve(b, input.ending, handler, past, room);
      ServeUnfolds(b, input.ending, handler, past, room);
      var request, eof, readOk := input.ReadPayloadOrEof();
      if !readOk {
        assert whole == left.(answers := answers);
        return false;
      }
      if eof {
        assert whole == left.(answers := answers);
        return true;
      }
      past := past + [request.value];
      var answer := handler(past);
      if answer.None? {
        assert whole == left.(answers := answers);
        return false;
      }
      var wrote := output.WritePayload(answer.value);
      if !wrote {
        assert whole == left.(answers := answers);
        return false;
      }
      FramesAppend(answers, answer.value);
      FollowsOn(whole, answers, left, answer.value, Serve(input.Left(), input.ending, handler, past, output.room));
      answers := answers + [answer.value];
    }
  }

  /** The whole result is the answers so far and then those of the rest. */
  predicate Follows(whole: Served, answers: seq<bytes>, left: Served)
  {
    whole == left.(answers := answers + left.answers)
  }

  lemma FollowsOn(whole: Served, answers: seq<bytes>, left: Served, answer: bytes, more: Served)
    requires Follows(whole, answers, left) && left == more.(answers := [answer] + more.answers)
    ensures Follows(whole, answers + [answer], more)
  {
    assert answers + ([answer] + more.answers) == answers + [answer] + more.answers;
  }

  lemma ServeUnfolds(b: bytes, ending: Ending, handler: Handler, past: seq<bytes>, room: nat)
    ensures Serve(b, ending, handler, past, room) ==
            match ReadFrame(b, ending)
            case Eof => Served([], [], true)
            case Failure(_) => Served([], [], false)
            case Payload(p, rest) =>
              var answer := handler(past + [p]);
              if answer.None? || !ValidPayload(answer.value) then Served([], [], false)
              else if |Frame(answer.value)| > room then Served([], Frame(answer.value)[..room], false)
              else
                var more := Serve(rest, ending, handler, past + [p], room - |Frame(answer.value)|);
                more.(answers := [answer.value] + more.answers)
  {
    hide ReadFrame, Frame, ValidPayload;
  }

  lemma NoFrames()
    ensures AllValid([]) && Frames([]) == []
  {
  }

  lemma {:induction false} FramesAppend(ps: seq<bytes>, p: bytes)
    requires AllValid(ps) && ValidPayload(p)
    ensures AllValid(ps + [p]) && Frames(ps + [p]) == Frames(ps) + Frame(p)
  {
    hide Frame;
    if ps == [] {
      assert (ps + [p])[1..] == [] && Frames([]) == [];
    } else {
      assert (ps + [p])[1..] == ps[1..] + [p];
      FramesAppend(ps[1..], p);
    }
  }

  /** A length of 0 or of more than 4 MiB is refused, whatever follows. */
  lemma BadSizeIsRefused(b: bytes, ending: Ending)
    requires |b| >= 4
    ensures var n := (b[0] as int) * 0x100_0000 + (b[1] as int) * 0x1_0000 + (b[2] as int) * 0x100 + (b[3] as int);
            ReadFrame(b, ending) == Failure(BadSize) <==> n == 0 || n > 4 * 1024 * 1024
  {
  }
}
