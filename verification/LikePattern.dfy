/**
 * The subject search: nested single-letter replaces over the subject, LIKE with an escape
 * character, and the pattern built from the search term. Together they must mean
 * "contains, ignoring ASCII case".
 */
module LikePattern {

  // ----- ASCII case -----

  function LowerChar(c: char): char
  {
    if 'A' <= c <= 'Z' then (c as int + 32) as char else c
  }

  function Lower(s: string): (r: string)
    ensures |r| == |s| && forall i :: 0 <= i < |s| ==> r[i] == LowerChar(s[i])
  {
    seq(|s|, i requires 0 <= i < |s| => LowerChar(s[i]))
  }

  function Replace(s: string, a: char, b: char): (r: string)
    ensures |r| == |s| && forall i :: 0 <= i < |s| ==> r[i] == if s[i] == a then b else s[i]
  {
    if s == "" then "" else [if s[0] == a then b else s[0]] + Replace(s[1..], a, b)
  }

  /** The first n of the nested replaces: 'A' by 'a' innermost, then 'B' by 'b', and so on. */
  function Replaces(s: string, n: nat): (r: string)
    requires n <= 26
  {
    if n == 0 then s
    else Replace(Replaces(s, n - 1), ('A' as int + n - 1) as char, ('a' as int + n - 1) as char)
  }

  lemma {:induction false} ReplacesSoFar(s: string, n: nat)
    requires n <= 26
    ensures |Replaces(s, n)| == |s|
    ensures forall i :: 0 <= i < |s| ==>
              Replaces(s, n)[i] == if 'A' as int <= s[i] as int < 'A' as int + n then LowerChar(s[i]) else s[i]
  {
    if n > 0 {
      ReplacesSoFar(s, n - 1);
    }
  }

  /** No replace undoes or repeats another: all 26 are the lower-casing map. */
  lemma ReplacesAreLower(s: string)
    ensures Replaces(s, 26) == Lower(s)
  {
    ReplacesSoFar(s, 26);
  }

  predicate EqualIgnoringCase(a: string, b: string)
  {
    |a| == |b| && forall i :: 0 <= i < |a| ==>
      a[i] == b[i] || ('A' <= a[i] <= 'Z' && b[i] as int == a[i] as int + 32) ||
      ('A' <= b[i] <= 'Z' && a[i] as int == b[i] as int + 32)
  }

  predicate OccursAt(subject: string, term: string, k: nat)
  {
    k + |term| <= |subject| && EqualIgnoringCase(subject[k..k + |term|], term)
  }

  lemma LowerDecidesCase(a: string, b: string)
    ensures Lower(a) == Lower(b) <==> EqualIgnoringCase(a, b)
  {
    if Lower(a) == Lower(b) {
      assert |a| == |Lower(a)| == |Lower(b)| == |b|;
      forall i | 0 <= i < |a| ensures LowerChar(a[i]) == LowerChar(b[i]) {
        assert Lower(a)[i] == Lower(b)[i];
      }
    }
  }

  // ----- LIKE -----

  /** The like predicate of ISO/IEC 9075-2, section 8.5, with '\\' as the escape character. */
  predicate Like(s: string, p: string)
    decreases |s| + |p|
  {
    if p == "" then s == ""
    else if p[0] == '%' then Like(s, p[1..]) || (s != "" && Like(s[1..], p))
    else if p[0] == '_' then s != "" && Like(s[1..], p[1..])
    else if p[0] == '\\' then |p| >= 2 && s != "" && s[0] == p[1] && Like(s[1..], p[2..])
    else s != "" && s[0] == p[0] && Like(s[1..], p[1..])
  }

  predicate Special(c: char)
  {
    c == '\\' || c == '%' || c == '_'
  }

  function EscapeLike(t: string): string
  {
    if t == "" then "" else (if Special(t[0]) then ['\\', t[0]] else [t[0]]) + EscapeLike(t[1..])
  }

  function ContainsPattern(term: string): string
  {
    "%" + EscapeLike(Lower(term)) + "%"
  }

  lemma {:induction false} EscapeLikeAppend(t: string, c: char)
    ensures EscapeLike(t + [c]) == EscapeLike(t) + (if Special(c) then ['\\', c] else [c])
  {
    if t == "" {
      assert (t + [c])[1..] == "" && EscapeLike("") == "";
    } else {
      assert (t + [c])[1..] == t[1..] + [c] && (t + [c])[0] == t[0];
      EscapeLikeAppend(t[1..], c);
    }
  }

  method MakeContainsLikePattern(term: string) returns (pattern: string)
    ensures pattern == ContainsPattern(term)
  {
    var lower := Lower(term);
    pattern := "%";
    assert lower[..0] == "" && EscapeLike("") == "" && "%" + "" == "%";
    hide EscapeLike;
    for i := 0 to |lower|
      invariant pattern == "%" + EscapeLike(lower[..i])
    {
      EscapeLikeAppend(lower[..i], lower[i]);
      assert lower[..i + 1] == lower[..i] + [lower[i]];
      if lower[i] == '\\' || lower[i] == '%' || lower[i] == '_' {
        pattern := pattern + ['\\'];
      }
      pattern := pattern + [lower[i]];
    }
    assert lower[..|lower|] == lower;
    pattern := pattern + "%";
  }

  lemma {:induction false} PercentMatchesAll(s: string)
    ensures Like(s, "%")
  {
    assert "%"[1..] == "";
    if s != "" {
      PercentMatchesAll(s[1..]);
    }
  }

  /** An escaped text followed by '%' matches exactly the subjects that start with the text. */
  lemma {:induction false} EscapedTextMatchesPrefix(s: string, t: string)
    ensures Like(s, EscapeLike(t) + "%") <==> t <= s
    decreases |t|
  {
    if t == "" {
      PercentMatchesAll(s);
      assert EscapeLike(t) + "%" == "%";
    } else {
      var p := EscapeLike(t) + "%";
      var rest := EscapeLike(t[1..]) + "%";
      assert p == (if Special(t[0]) then ['\\', t[0]] else [t[0]]) + rest;
      if Special(t[0]) {
        assert p[0] == '\\' && p[1] == t[0] && p[2..] == rest;
      } else {
        assert p[0] == t[0] && p[1..] == rest;
      }
      if s != "" {
        EscapedTextMatchesPrefix(s[1..], t[1..]);
        assert s == [s[0]] + s[1..] && t == [t[0]] + t[1..];
      }
    }
  }

  /** A leading '%' lets the rest match any suffix. */
  lemma {:induction false} PercentMatchesSuffix(s: string, p: string)
    ensures Like(s, "%" + p) <==> exists k :: 0 <= k <= |s| && Like(s[k..], p)
    decreases |s|
  {
    assert ("%" + p)[0] == '%' && ("%" + p)[1..] == p && s[0..] == s;
    if s != "" {
      PercentMatchesSuffix(s[1..], p);
      if k :| 0 <= k <= |s| && Like(s[k..], p) {
        if k > 0 {
          assert s[1..][k - 1..] == s[k..];
        }
      }
      if k :| 0 <= k <= |s[1..]| && Like(s[1..][k..], p) {
        assert s[1..][k..] == s[k + 1..];
      }
    } else {
      assert forall k :: 0 <= k <= |s| ==> s[k..] == s;
    }
  }

  /** The search condition holds exactly when the subject contains the term, ignoring ASCII
      case, also for terms made of '%', '_' and '\\'. */
  lemma SearchMeansContains(subject: string, term: string)
    ensures Like(Replaces(subject, 26), ContainsPattern(term)) <==>
            exists k: nat :: OccursAt(subject, term, k)
  {
    assert forall k: nat :: OccursAt(subject, term, k) ==> k <= |subject|;
    hide Like, EscapeLike, Replaces, OccursAt;
    var s, t := Lower(subject), Lower(term);
    ReplacesAreLower(subject);
    var rest := EscapeLike(t) + "%";
    assert ContainsPattern(term) == "%" + rest;
    PercentMatchesSuffix(s, rest);
    forall k | 0 <= k <= |s|
      ensures Like(s[k..], rest) <==> OccursAt(subject, term, k)
    {
      EscapedTextMatchesPrefix(s[k..], t);
      WindowIgnoringCase(subject, term, k);
    }
  }

  lemma WindowIgnoringCase(subject: string, term: string, k: nat)
    requires k <= |subject|
    ensures Lower(term) <= Lower(subject)[k..] <==> OccursAt(subject, term, k)
  {
    hide EqualIgnoringCase;
    if k <= |subject| - |term| {
      var window := subject[k..k + |term|];
      LowerDecidesCase(window, term);
      assert Lower(window) == Lower(subject)[k..k + |term|];
      assert Lower(subject)[k..][..|term|] == Lower(window);
    }
  }
}
