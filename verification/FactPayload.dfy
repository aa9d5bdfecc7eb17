/**
 * The WYREFMP1 fact payload: magic, mutation kind, two strings and a counted list of strings,
 * each with a little-endian 32-bit length. Encoding fills a buffer whose size an earlier pass
 * computed; decoding moves an offset through untrusted bytes.
 */
module FactPayload {
  import opened Basics

  const UINT32_MAX := 0xFFFF_FFFF
  const SIZE_MAX := 0xFFFF_FFFF_FFFF_FFFF
  const HEADER_SIZE := 9

  /** "WYREFMP1" */
  const MAGIC: bytes := [0x57, 0x59, 0x52, 0x45, 0x46, 0x4D, 0x50, 0x31]

  datatype Error = InvalidArgument | InvalidData

  /** mutation is the raw enumeration value: 0 inserts a fact, 1 retracts it. */
  datatype Request = Request(mutation: byte, predicateId: bytes, scopeId: bytes, arguments: seq<bytes>)

  // ----- validation -----

  predicate PredicateStart(c: byte)
  {
    0x61 <= c <= 0x7A || c == 0x5F
  }

  predicate PredicateChar(c: byte)
  {
    0x61 <= c <= 0x7A || 0x41 <= c <= 0x5A || 0x30 <= c <= 0x39 || c == 0x5F
  }

  predicate Control(c: byte)
  {
    c < 0x20 || c == 0x7F
  }

  predicate ValidPredicate(p: bytes)
  {
    p != [] && PredicateStart(p[0]) && forall i :: 1 <= i < |p| ==> PredicateChar(p[i])
  }

  predicate ValidText(t: bytes)
  {
    t != [] && forall i :: 0 <= i < |t| ==> !Control(t[i])
  }

  predicate Valid(r: Request)
  {
    && r.mutation <= 1 && ValidPredicate(r.predicateId) && ValidText(r.scopeId)
    && forall i :: 0 <= i < |r.arguments| ==> ValidText(r.arguments[i])
  }

  /** Validity in characters: a kind of 0 or 1, an identifier that starts with a small letter or
      an underscore, and texts that are not empty and have no control characters. */
  lemma ValidMeans(r: Request)
    ensures Valid(r) <==>
            && (r.mutation == 0 || r.mutation == 1)
            && r.predicateId != [] && r.scopeId != []
            && ('a' as int <= r.predicateId[0] <= 'z' as int || r.predicateId[0] == '_' as int)
            && (forall i :: 1 <= i < |r.predicateId| ==>
                  var c := r.predicateId[i];
                  'a' as int <= c <= 'z' as int || 'A' as int <= c <= 'Z' as int || '0' as int <= c <= '9' as int ||
                  c == '_' as int)
            && (forall i :: 0 <= i < |r.scopeId| ==> r.scopeId[i] >= 32 && r.scopeId[i] != 127)
            && (forall i :: 0 <= i < |r.arguments| ==> r.arguments[i] != [])
            && (forall i, k :: 0 <= i < |r.arguments| && 0 <= k < |r.arguments[i]| ==>
                  r.arguments[i][k] >= 32 && r.arguments[i][k] != 127)
  {
    if forall i, k :: 0 <= i < |r.arguments| && 0 <= k < |r.arguments[i]| ==>
         r.arguments[i][k] >= 32 && r.arguments[i][k] != 127 {
      assert forall i :: 0 <= i < |r.arguments| && r.arguments[i] != [] ==> ValidText(r.arguments[i]);
    }
  }

  method ValidatePredicateId(p: bytes) returns (ok: bool)
    ensures ok <==> ValidPredicate(p)
  {
    if p == [] {
      return false;
    }
    if !PredicateStart(p[0]) {
      return false;
    }
    for i := 1 to |p|
      invariant forall k :: 1 <= k < i ==> PredicateChar(p[k])
    {
      if !PredicateChar(p[i]) {
        return false;
      }
    }
    return true;
  }

  method ValidateText(t: bytes) returns (ok: bool)
    ensures ok <==> ValidText(t)
  {
    if t == [] {
      return false;
    }
    for i := 0 to |t|
      invariant forall k :: 0 <= k < i ==> !Control(t[k])
    {
      if Control(t[i]) {
        return false;
      }
    }
    return true;
  }

  method ValidateRequest(r: Request) returns (ok: bool)
    ensures ok <==> Valid(r)
  {
    hide ValidText, ValidPredicate;
    if r.mutation > 1 {
      return false;
    }
    ok := ValidatePredicateId(r.predicateId);
    if !ok {
      return false;
    }
    ok := ValidateText(r.scopeId);
    if !ok {
      return false;
    }
    for i := 0 to |r.arguments|
      invariant forall k :: 0 <= k < i ==> ValidText(r.arguments[k])
    {
      ok := ValidateText(r.arguments[i]);
      if !ok {
        return false;
      }
    }
    return true;
  }

  // ----- the format -----

  function U32(n: nat): (r: bytes)
    requires n <= UINT32_MAX
    ensures |r| == 4
  {
    [n % 256, n / 256 % 256, n / 65536 % 256, n / 16777216 % 256]
  }

  function ReadU32(b: bytes): (n: nat)
    requires |b| >= 4
    ensures n <= UINT32_MAX
  {
    (b[0] as int) + (b[1] as int) * 256 + (b[2] as int) * 65536 + (b[3] as int) * 16777216
  }

  lemma U32ReadsBack(n: nat, rest: bytes)
    requires n <= UINT32_MAX
    ensures ReadU32(U32(n) + rest) == n
  {
    var a, b, c := n / 256, n / 65536, n / 16777216;
    assert a / 256 == b && b / 256 == c;
    assert c % 256 == c;
  }

  lemma U32WritesBack(b: bytes)
    requires |b| >= 4
    ensures U32(ReadU32(b)) == b[..4]
  {
    var n := ReadU32(b);
    assert n / 256 == (b[1] as int) + (b[2] as int) * 256 + (b[3] as int) * 65536;
    assert n / 65536 == (b[2] as int) + (b[3] as int) * 256;
    assert n / 16777216 == b[3];
  }

  function Str(v: bytes): (r: bytes)
    requires |v| <= UINT32_MAX
    ensures |r| == 4 + |v|
  {
    U32(|v|) + v
  }

  predicate AllShort(vs: seq<bytes>)
  {
    forall i :: 0 <= i < |vs| ==> |vs[i]| <= UINT32_MAX
  }

  function Strs(vs: seq<bytes>): bytes
    requires AllShort(vs)
  {
    if vs == [] then [] else Str(vs[0]) + Strs(vs[1..])
  }

  /** Every length has a place in the format. */
  predicate Short(r: Request)
  {
    |r.predicateId| <= UINT32_MAX && |r.scopeId| <= UINT32_MAX && AllShort(r.arguments) &&
    |r.arguments| <= UINT32_MAX
  }

  function Payload(r: Request): bytes
    requires Short(r)
  {
    MAGIC + [r.mutation] + Str(r.predicateId) + Str(r.scopeId) + U32(|r.arguments|) + Strs(r.arguments)
  }

  /** Encoding, with its error conditions. */
  function Encode(r: Request): Result<bytes, Error>
  {
    if !Valid(r) || !Short(r) || |Payload(r)| > SIZE_MAX then Err(InvalidArgument) else Ok(Payload(r))
  }

  // ----- decoding -----

  /** A string and what follows it; strings hold no NUL. */
  function ReadString(b: bytes): (r: Option<(bytes, bytes)>)
    ensures r.Some? ==> |r.value.1| + 4 + |r.value.0| == |b|
  {
    if |b| < 4 then None
    else
      var n := ReadU32(b);
      if n > |b| - 4 || 0 in b[4..4 + n] then None else Some((b[4..4 + n], b[4 + n..]))
  }

  function ReadStrings(b: bytes, count: nat): Option<(seq<bytes>, bytes)>
    decreases count
  {
    if count == 0 then Some(([], b))
    else
      var head := ReadString(b);
      if head.None? then None
      else
        var tail := ReadStrings(head.value.1, count - 1);
        if tail.None? then None else Some(([head.value.0] + tail.value.0, tail.value.1))
  }

  function DecodeArguments(mutation: byte, p: bytes, s: bytes, b: bytes): Result<Request, Error>
  {
    if |b| < 4 then Err(InvalidData)
    else
      var args := ReadStrings(b[4..], ReadU32(b));
      if args.None? || args.value.1 != [] then Err(InvalidData)
      else
        var r := Request(mutation, p, s, args.value.0);
        if Valid(r) then Ok(r) else Err(InvalidArgument)
  }

  function Decode(b: bytes): Result<Request, Error>
  {
    if |b| < HEADER_SIZE || b[..8] != MAGIC || b[8] > 1 then Err(InvalidData)
    else
      var p := ReadString(b[9..]);
      if p.None? then Err(InvalidData)
      else
        var s := ReadString(p.value.1);
        if s.None? then Err(InvalidData) else DecodeArguments(b[8], p.value.0, s.value.0, s.value.1)
  }

  // ----- decoding what was encoded -----

  lemma StringReadsBack(v: bytes, rest: bytes)
    requires |v| <= UINT32_MAX && 0 !in v
    ensures ReadString(Str(v) + rest) == Some((v, rest))
  {
    hide U32, ReadU32;
    var b := Str(v) + rest;
    assert b == U32(|v|) + (v + rest);
    U32ReadsBack(|v|, v + rest);
    assert b[4..4 + |v|] == v && b[4 + |v|..] == rest;
  }

  lemma {:induction false} StringsReadBack(vs: seq<bytes>, rest: bytes)
    requires AllShort(vs) && forall i :: 0 <= i < |vs| ==> 0 !in vs[i]
    ensures ReadStrings(Strs(vs) + rest, |vs|) == Some((vs, rest))
  {
    hide Str, ReadString;
    if vs == [] {
      assert Strs(vs) + rest == rest;
    } else {
      var more := Strs(vs[1..]) + rest;
      assert Strs(vs) + rest == Str(vs[0]) + more;
      StringReadsBack(vs[0], more);
      StringsReadBack(vs[1..], rest);
      assert vs == [vs[0]] + vs[1..];
    }
  }

  lemma ValidHasNoNul(r: Request)
    requires Valid(r)
    ensures 0 !in r.predicateId && 0 !in r.scopeId && forall i :: 0 <= i < |r.arguments| ==> 0 !in r.arguments[i]
  {
    forall i | 0 <= i < |r.arguments| ensures 0 !in r.arguments[i] {
      assert ValidText(r.arguments[i]);
    }
  }

  lemma ArgumentsReadBack(r: Request)
    requires Valid(r) && Short(r)
    ensures DecodeArguments(r.mutation, r.predicateId, r.scopeId, U32(|r.arguments|) + Strs(r.arguments)) == Ok(r)
  {
    hide Strs, Str, ReadStrings, Valid, U32, ReadU32;
    ValidHasNoNul(r);
    var body := Strs(r.arguments);
    var b := U32(|r.arguments|) + body;
    U32ReadsBack(|r.arguments|, body);
    assert b[4..] == body && body + [] == body;
    StringsReadBack(r.arguments, []);
  }

  predicate RequestRecovered(r: Request)
    requires Short(r)
  {
    Decode(Payload(r)) == Ok(r)
  }

  /** Decoding what was encoded gives the request back. */
  lemma DecodeEncode(r: Request)
    requires Valid(r) && Short(r)
    ensures RequestRecovered(r)
  {
    hide Strs, Str, ReadString, U32, DecodeArguments, ValidText, ValidPredicate, AllShort;
    ValidHasNoNul(r);
    var c := U32(|r.arguments|) + Strs(r.arguments);
    var b := Str(r.scopeId) + c;
    var a := Str(r.predicateId) + b;
    assert Payload(r) == MAGIC + [r.mutation] + a;
    StringReadsBack(r.predicateId, b);
    StringReadsBack(r.scopeId, c);
    ArgumentsReadBack(r);
    assert Payload(r)[..8] == MAGIC && Payload(r)[8] == r.mutation && Payload(r)[9..] == a;
  }

  // ----- encoding what was decoded -----

  lemma StringWritesBack(b: bytes)
    requires ReadString(b).Some?
    ensures var (v, rest) := ReadString(b).value; |v| <= UINT32_MAX && b == Str(v) + rest
  {
    hide U32, ReadU32;
    U32WritesBack(b);
    var n := ReadU32(b);
    assert b == b[..4] + b[4..4 + n] + b[4 + n..];
  }

  lemma {:induction false} StringsWriteBack(b: bytes, count: nat)
    requires ReadStrings(b, count).Some?
    ensures var (vs, rest) := ReadStrings(b, count).value; |vs| == count && AllShort(vs) && b == Strs(vs) + rest
    decreases count
  {
    hide Str, ReadString;
    if count == 0 {
      assert b == [] + b;
    } else {
      StringWritesBack(b);
      var (v, more) := ReadString(b).value;
      StringsWriteBack(more, count - 1);
      var (vs, rest) := ReadStrings(more, count - 1).value;
      assert ([v] + vs)[1..] == vs;
      assert b == Str(v) + (Strs(vs) + rest);
    }
  }

  lemma ArgumentsWriteBack(mutation: byte, p: bytes, s: bytes, b: bytes)
    requires DecodeArguments(mutation, p, s, b).Ok?
    ensures var r := DecodeArguments(mutation, p, s, b).value;
            && Valid(r) && r.mutation == mutation && r.predicateId == p && r.scopeId == s
            && AllShort(r.arguments) && |r.arguments| <= UINT32_MAX
            && b == U32(|r.arguments|) + Strs(r.arguments)
  {
    hide Strs, Str, ReadStrings, Valid, U32, ReadU32, AllShort;
    var n := ReadU32(b);
    U32WritesBack(b);
    StringsWriteBack(b[4..], n);
    var args := ReadStrings(b[4..], n).value.0;
    assert b[4..] == Strs(args) + [];
    assert b == b[..4] + b[4..];
  }

  /** Bytes at..at+4 hold n, least significant byte first. */
  predicate HoldsNumber(b: bytes, at: nat, n: nat)
  {
    at + 4 <= |b| &&
    (b[at] as int) + (b[at + 1] as int) * 0x100 + (b[at + 2] as int) * 0x1_0000 + (b[at + 3] as int) * 0x100_0000 == n
  }

  predicate HoldsString(b: bytes, at: nat, v: bytes)
  {
    HoldsNumber(b, at, |v|) && at + 4 + |v| <= |b| && b[at + 4..at + 4 + |v|] == v
  }

  lemma StrHolds(before: bytes, v: bytes, after: bytes)
    requires |v| <= UINT32_MAX
    ensures HoldsString(before + Str(v) + after, |before|, v)
  {
    hide U32;
    var b := before + Str(v) + after;
    U32ReadsBack(|v|, v + after);
    assert b[|before|..] == U32(|v|) + (v + after);
    assert forall i :: 0 <= i < 4 ==> b[|before| + i] == (U32(|v|) + (v + after))[i];
    assert b[|before| + 4..|before| + 4 + |v|] == v;
  }

  /** The layout of a payload: "WYREFMP1", the kind, predicate, scope, the number of arguments
      and the arguments, each text after its length. */
  lemma PayloadLayout(r: Request)
    requires Short(r)
    ensures var b := Payload(r);
            var scope := 13 + |r.predicateId|;
            var count := scope + 4 + |r.scopeId|;
            && (forall i :: 0 <= i < 8 ==> b[i] == "WYREFMP1"[i] as int)
            && b[8] == r.mutation
            && HoldsString(b, 9, r.predicateId) && HoldsString(b, scope, r.scopeId)
            && HoldsNumber(b, count, |r.arguments|)
            && count + 4 <= |b| && b[count + 4..] == Strs(r.arguments)
  {
    hide U32, Str, Strs, AllShort, HoldsString, HoldsNumber, MAGIC;
    var b, p, s, n, args := Payload(r), Str(r.predicateId), Str(r.scopeId), U32(|r.arguments|), Strs(r.arguments);
    MagicBytes();
    var head := MAGIC + [r.mutation];
    assert b == head + (p + s + n + args);
    assert b == head + p + (s + n + args);
    StrHolds(head, r.predicateId, s + n + args);
    assert b == (head + p) + s + (n + args);
    StrHolds(head + p, r.scopeId, n + args);
    assert b == (head + p + s) + n + args;
    NumberHolds(head + p + s, |r.arguments|, args);
  }

  lemma MagicBytes()
    ensures |MAGIC| == 8 && forall i :: 0 <= i < 8 ==> MAGIC[i] == "WYREFMP1"[i] as int
  {
  }

  lemma NumberHolds(before: bytes, n: nat, after: bytes)
    requires n <= UINT32_MAX
    ensures var b := before + U32(n) + after; HoldsNumber(b, |before|, n) && b[|before| + 4..] == after
  {
    hide U32;
    var b := before + U32(n) + after;
    U32ReadsBack(n, after);
    assert forall i :: 0 <= i < 4 ==> b[|before| + i] == (U32(n) + after)[i];
  }

  /** Argument i lies behind the arguments before it. */
  lemma {:induction false} ArgumentLayout(vs: seq<bytes>, i: nat, before: bytes)
    requires AllShort(vs) && i < |vs|
    ensures HoldsString(before + Strs(vs), |before| + SizeOf(vs[..i]), vs[i])
  {
    hide Str, HoldsString, SizeOf;
    var a, b := vs[..i], vs[i + 1..];
    assert vs == a + [vs[i]] + b;
    StrsConcat(a + [vs[i]], b);
    StrsAppend(a, vs[i]);
    StrsSize(a);
    StrHolds(before + Strs(a), vs[i], Strs(b));
    assert before + Strs(vs) == before + Strs(a) + Str(vs[i]) + Strs(b);
  }

  lemma {:induction false} StrsConcat(a: seq<bytes>, b: seq<bytes>)
    requires AllShort(a) && AllShort(b)
    ensures AllShort(a + b) && Strs(a + b) == Strs(a) + Strs(b)
  {
    hide Str;
    if a == [] {
      assert a + b == b;
    } else {
      assert (a + b)[0] == a[0] && (a + b)[1..] == a[1..] + b;
      StrsConcat(a[1..], b);
    }
  }

  /** Every accepted byte string is the encoding of the request it decodes to. */
  lemma EncodeDecode(b: bytes)
    requires Decode(b).Ok? && |b| <= SIZE_MAX
    ensures Encode(Decode(b).value) == Ok(b)
  {
    hide Strs, Str, ReadString, U32, DecodeArguments, Valid, AllShort;
    StringWritesBack(b[9..]);
    var (p, more) := ReadString(b[9..]).value;
    StringWritesBack(more);
    var (s, last) := ReadString(more).value;
    ArgumentsWriteBack(b[8], p, s, last);
    var r := Decode(b).value;
    assert b == b[..8] + [b[8]] + b[9..];
    assert b == MAGIC + [r.mutation] + (Str(p) + (Str(s) + last));
    assert Payload(r) == b;
  }

  /** Exactly the encodings of valid requests are accepted. */
  lemma AcceptedIffEncoded(b: bytes)
    requires |b| <= SIZE_MAX
    ensures Decode(b).Ok? <==> exists r :: Encode(r) == Ok(b)
  {
    if Decode(b).Ok? {
      EncodeDecode(b);
    }
    if r :| Encode(r) == Ok(b) {
      DecodeEncode(r);
    }
  }

  // ----- how much work a claimed count can cause -----

  /** How many strings are read before the loop ends or fails. */
  function SuccessfulReads(b: bytes, count: nat): nat
    decreases count
  {
    if count == 0 || ReadString(b).None? then 0 else 1 + SuccessfulReads(ReadString(b).value.1, count - 1)
  }

  lemma {:induction false} ReadsAreBounded(b: bytes, count: nat)
    ensures 4 * SuccessfulReads(b, count) <= |b|
    ensures ReadStrings(b, count).Some? <==> SuccessfulReads(b, count) == count
    decreases count
  {
    hide ReadU32;
    if count > 0 && ReadString(b).Some? {
      ReadsAreBounded(ReadString(b).value.1, count - 1);
    }
  }

  // ----- the encoder -----

  function SizeOf(vs: seq<bytes>): nat
  {
    if vs == [] then 0 else SizeOf(vs[..|vs| - 1]) + 4 + |vs[|vs| - 1]|
  }

  lemma {:induction false} StrsAppend(vs: seq<bytes>, v: bytes)
    requires AllShort(vs + [v])
    ensures AllShort(vs) && |v| <= UINT32_MAX && Strs(vs + [v]) == Strs(vs) + Str(v)
  {
    hide Str;
    assert (vs + [v])[|vs|] == v;
    assert forall i :: 0 <= i < |vs| ==> (vs + [v])[i] == vs[i];
    if vs == [] {
      assert (vs + [v])[1..] == [] && Strs([]) == [];
    } else {
      assert (vs + [v])[1..] == vs[1..] + [v];
      StrsAppend(vs[1..], v);
    }
  }

  lemma {:induction false} StrsSize(vs: seq<bytes>)
    requires AllShort(vs)
    ensures |Strs(vs)| == SizeOf(vs)
  {
    if vs != [] {
      hide Strs;
      var n := |vs| - 1;
      assert vs == vs[..n] + [vs[n]];
      StrsAppend(vs[..n], vs[n]);
      StrsSize(vs[..n]);
    }
  }

  /** The size pass: None when a string or the total is too large. */
  method PayloadSize(r: Request) returns (size: Option<nat>)
    requires |r.arguments| <= UINT32_MAX
    ensures size.Some? <==> Short(r) && |Payload(r)| <= SIZE_MAX
    ensures size.Some? ==> size.value == |Payload(r)|
  {
    hide Strs, Str, U32;
    var total := HEADER_SIZE;
    if |r.predicateId| > UINT32_MAX || 4 + |r.predicateId| > SIZE_MAX - total {
      return None;
    }
    total := total + 4 + |r.predicateId|;
    if |r.scopeId| > UINT32_MAX || 4 + |r.scopeId| > SIZE_MAX - total {
      return None;
    }
    total := total + 4 + |r.scopeId|;
    if 4 > SIZE_MAX - total {
      return None;
    }
    total := total + 4;
    ghost var fixed := total;
    for i := 0 to |r.arguments|
      invariant AllShort(r.arguments[..i])
      invariant total == fixed + SizeOf(r.arguments[..i]) <= SIZE_MAX
    {
      var v := r.arguments[i];
      assert r.arguments[..i + 1][..i] == r.arguments[..i];
      if |v| > UINT32_MAX || 4 + |v| > SIZE_MAX - total {
        TooLarge(r, i);
        return None;
      }
      total := total + 4 + |v|;
    }
    assert r.arguments[..|r.arguments|] == r.arguments;
    StrsSize(r.arguments);
    return Some(total);
  }

  /** Past the limit after some argument is past the limit after all. */
  lemma TooLarge(r: Request, i: nat)
    requires i < |r.arguments| <= UINT32_MAX && |r.predicateId| <= UINT32_MAX && |r.scopeId| <= UINT32_MAX
    requires |r.arguments[i]| > UINT32_MAX ||
             HEADER_SIZE + 12 + |r.predicateId| + |r.scopeId| + SizeOf(r.arguments[..i]) + 4 + |r.arguments[i]| > SIZE_MAX
    ensures !(Short(r) && |Payload(r)| <= SIZE_MAX)
  {
    hide Strs, Str, U32;
    if Short(r) {
      StrsSize(r.arguments);
      SizeGrows(r.arguments, i + 1);
      assert r.arguments[..i + 1][..i] == r.arguments[..i];
    }
  }

  lemma {:induction false} SizeGrows(vs: seq<bytes>, k: nat)
    requires k <= |vs|
    ensures SizeOf(vs[..k]) <= SizeOf(vs)
  {
    if k == |vs| {
      assert vs[..k] == vs;
    } else {
      var n := |vs| - 1;
      assert vs[..n][..k] == vs[..k];
      SizeGrows(vs[..n], k);
    }
  }

  method WriteU32(buffer: array<byte>, cursor: nat, n: nat)
    requires n <= UINT32_MAX && cursor + 4 <= buffer.Length
    modifies buffer
    ensures buffer[..cursor + 4] == old(buffer[..cursor]) + U32(n)
  {
    buffer[cursor] := n % 256;
    buffer[cursor + 1] := n / 256 % 256;
    buffer[cursor + 2] := n / 65536 % 256;
    buffer[cursor + 3] := n / 16777216 % 256;
  }

  method WriteString(buffer: array<byte>, cursor: nat, v: bytes) returns (next: nat)
    requires |v| <= UINT32_MAX && cursor + 4 + |v| <= buffer.Length
    modifies buffer
    ensures next == cursor + 4 + |v| && buffer[..next] == old(buffer[..cursor]) + Str(v)
  {
    hide U32;
    WriteU32(buffer, cursor, |v|);
    next := cursor + 4;
    ghost var before := buffer[..next];
    for i := 0 to |v|
      invariant buffer[..next + i] == before + v[..i]
    {
      buffer[next + i] := v[i];
      assert buffer[..next + i + 1] == buffer[..next + i] + [v[i]];
    }
    next := next + |v|;
    assert v[..|v|] == v;
  }

  method WriteHeader(buffer: array<byte>, mutation: byte)
    requires buffer.Length >= HEADER_SIZE
    modifies buffer
    ensures buffer[..HEADER_SIZE] == MAGIC + [mutation]
  {
    for i := 0 to 8
      invariant buffer[..i] == MAGIC[..i]
    {
      buffer[i] := MAGIC[i];
    }
    assert MAGIC[..8] == MAGIC;
    buffer[8] := mutation;
  }

  method EncodeRequest(r: Request) returns (res: Result<bytes, Error>)
    requires |r.arguments| <= UINT32_MAX
    ensures res == Encode(r)
  {
    hide Strs, Str, U32, Valid, AllShort, MAGIC, SizeOf;
    var valid := ValidateRequest(r);
    if !valid {
      return Err(InvalidArgument);
    }
    var size := PayloadSize(r);
    if size.None? {
      return Err(InvalidArgument);
    }
    var buffer := new byte[size.value];
    PayloadParts(r);
    WriteHeader(buffer, r.mutation);
    var cursor := HEADER_SIZE;
    cursor := WriteString(buffer, cursor, r.predicateId);
    cursor := WriteString(buffer, cursor, r.scopeId);
    WriteU32(buffer, cursor, |r.arguments|);
    cursor := cursor + 4;
    WriteArguments(buffer, cursor, r.arguments);
    assert buffer[..] == buffer[..buffer.Length];
    return Ok(buffer[..]);
  }

  lemma PayloadParts(r: Request)
    requires Short(r)
    ensures |Payload(r)| == HEADER_SIZE + 12 + |r.predicateId| + |r.scopeId| + SizeOf(r.arguments)
  {
    hide Strs, Str, U32;
    StrsSize(r.arguments);
  }

  /** The strings fill the rest of the buffer exactly. */
  method WriteArguments(buffer: array<byte>, start: nat, vs: seq<bytes>)
    requires AllShort(vs) && start + SizeOf(vs) == buffer.Length
    modifies buffer
    ensures buffer[..buffer.Length] == old(buffer[..start]) + Strs(vs)
  {
    assert vs[..0] == [] && Strs([]) == [];
    hide Strs, Str, U32;
    var cursor := start;
    for i := 0 to |vs|
      invariant cursor == start + SizeOf(vs[..i]) <= buffer.Length
      invariant AllShort(vs[..i]) && buffer[..cursor] == old(buffer[..start]) + Strs(vs[..i])
    {
      assert vs[..i + 1] == vs[..i] + [vs[i]];
      assert vs[..i + 1][..i] == vs[..i];
      SizeGrows(vs, i + 1);
      StrsAppend(vs[..i], vs[i]);
      cursor := WriteString(buffer, cursor, vs[i]);
    }
    assert vs[..|vs|] == vs;
  }

  // ----- the decoder -----

  /** Reads a string at an offset of arbitrary data, never outside it. */
  method ReadStringAt(data: bytes, offset: nat) returns (res: Option<bytes>, next: nat)
    requires offset <= |data|
    ensures match ReadString(data[offset..])
            case None => res.None?
            case Some((v, rest)) => res == Some(v) && offset + 4 <= next <= |data| && data[next..] == rest
  {
    hide ReadU32;
    next := offset;
    if |data| - offset < 4 {
      return None, next;
    }
    ghost var b := data[offset..];
    var n := ReadU32(data[offset..]);
    next := offset + 4;
    if n > |data| - next {
      return None, next;
    }
    assert data[next..next + n] == b[4..4 + n];
    if 0 in data[next..next + n] {
      return None, next;
    }
    res := Some(data[next..next + n]);
    next := next + n;
    assert data[next..] == b[4 + n..];
  }

  /** Reads the counted strings; fails at the first that does not fit, however many are claimed. */
  method ReadArguments(data: bytes, offset: nat, count: nat)
    returns (res: Option<seq<bytes>>, next: nat, ghost done: nat)
    requires offset <= |data|
    ensures done == SuccessfulReads(data[offset..], count) && 4 * done <= |data| - offset
    ensures match ReadStrings(data[offset..], count)
            case None => res.None?
            case Some((vs, rest)) => res == Some(vs) && next <= |data| && data[next..] == rest
  {
    hide ReadString;
    var arguments: seq<bytes> := [];
    next := offset;
    done := 0;
    assert forall rest: seq<bytes> :: [] + rest == rest;
    ReadsAreBounded(data[offset..], count);
    for i := 0 to count
      invariant next <= |data| && done == i
      invariant SuccessfulReads(data[offset..], count) == i + SuccessfulReads(data[next..], count - i)
      invariant ReadStrings(data[offset..], count) ==
                match ReadStrings(data[next..], count - i)
                case None => None
                case Some((vs, rest)) => Some((arguments + vs, rest))
    {
      var one, after := ReadStringAt(data, next);
      if one.None? {
        return None, next, done;
      }
      assert forall vs: seq<bytes> :: arguments + ([one.value] + vs) == arguments + [one.value] + vs;
      arguments := arguments + [one.value];
      next := after;
      done := done + 1;
    }
    assert arguments + [] == arguments;
    return Some(arguments), next, done;
  }

  method DecodeRequest(data: bytes) returns (res: Result<Request, Error>)
    ensures res == Decode(data)
  {
    hide ReadString, ReadStrings, Valid, ReadU32, MAGIC;
    if |data| < HEADER_SIZE {
      return Err(InvalidData);
    }
    if data[..8] != MAGIC {
      return Err(InvalidData);
    }
    var mutation := data[8];
    if mutation > 1 {
      return Err(InvalidData);
    }
    var p, afterP := ReadStringAt(data, 9);
    if p.None? {
      return Err(InvalidData);
    }
    var s, afterS := ReadStringAt(data, afterP);
    if s.None? {
      return Err(InvalidData);
    }
    if |data| - afterS < 4 {
      return Err(InvalidData);
    }
    var count := ReadU32(data[afterS..]);
    assert data[afterS..][4..] == data[afterS + 4..];
    var args, end, _ := ReadArguments(data, afterS + 4, count);
    if args.None? || end != |data| {
      return Err(InvalidData);
    }
    var r := Request(mutation, p.value, s.value, args.value);
    var valid := ValidateRequest(r);
    return if valid then Ok(r) else Err(InvalidArgument);
  }
}
