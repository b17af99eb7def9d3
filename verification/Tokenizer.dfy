/** The pipeline shell's two-level tokenizer. strtok (section 7.24.5.8 of ISO/IEC 9899:2011) cuts
    the line in place into commands; every child cuts its own copy of one command into words. */
module Tokenizer {
  const NUL: char := '\0'

  /* ---- Strings in memory ---- */

  /** Where the string that starts at p ends: its terminating NUL, or the end of the memory. */
  function End(m: seq<char>, p: nat): (e: nat)
    requires p <= |m|
    ensures p <= e <= |m| && (forall k :: p <= k < e ==> m[k] != NUL) && (e < |m| ==> m[e] == NUL)
    decreases |m| - p
  {
    if p == |m| || m[p] == NUL then p else End(m, p + 1)
  }

  function Str(m: seq<char>, p: nat): string
    requires p <= |m|
  {
    m[p..End(m, p)]
  }

  lemma EndIs(m: seq<char>, p: nat, e: nat)
    requires p <= e < |m| && m[e] == NUL && forall k :: p <= k < e ==> m[k] != NUL
    ensures End(m, p) == e
  {}

  /** A string that is terminated before `limit` depends on nothing from there on. */
  ghost predicate Held(m: seq<char>, p: nat, limit: nat) {
    p < limit <= |m| && End(m, p) < limit
  }

  lemma HeldStays(m: seq<char>, m': seq<char>, p: nat, limit: nat)
    requires Held(m, p, limit) && |m'| == |m| && m'[..limit] == m[..limit]
    ensures Held(m', p, limit) && Str(m', p) == Str(m, p)
  {
    var e := End(m, p);
    assert forall k :: 0 <= k < limit ==> m'[k] == m'[..limit][k] == m[..limit][k] == m[k];
    EndIs(m', p, e);
    assert m'[p..e] == m[p..e];
  }

  /* ---- Fields ---- */

  function Span(s: string, delims: set<char>): (n: nat)
    ensures n <= |s| && (forall k :: 0 <= k < n ==> s[k] !in delims) && (n < |s| ==> s[n] in delims)
  {
    if s == "" || s[0] in delims then 0 else 1 + Span(s[1..], delims)
  }

  /** The maximal delimiter-free pieces of s that are not empty, in order. */
  function Fields(s: string, delims: set<char>): seq<string>
    decreases |s|
  {
    if s == "" then []
    else if s[0] in delims then Fields(s[1..], delims)
    else
      var n := Span(s, delims);
      [s[..n]] + Fields(s[n..], delims)
  }

  lemma SpanIs(s: string, delims: set<char>, n: nat)
    requires n <= |s| && (forall k :: 0 <= k < n ==> s[k] !in delims) && (n < |s| ==> s[n] in delims)
    ensures Span(s, delims) == n
  {}

  lemma SpanStops(a: string, d: char, b: string, delims: set<char>)
    requires d in delims
    ensures
      var n := Span(a, delims);
      Span(a + [d] + b, delims) == n && (a + [d] + b)[..n] == a[..n] && (a + [d] + b)[n..] == a[n..] + [d] + b
  {
    SpanIs(a + [d] + b, delims, Span(a, delims));
  }

  lemma Regrouped<T>(a: seq<T>, b: seq<T>, c: seq<T>)
    ensures a + (b + c) == a + b + c
  {}

  lemma FieldsUnfold(s: string, delims: set<char>)
    requires s != "" && s[0] !in delims
    ensures Fields(s, delims) == [s[..Span(s, delims)]] + Fields(s[Span(s, delims)..], delims)
  {}

  /** Cutting at one delimiter cuts the fields in two. */
  lemma {:induction false} FieldsSplit(a: string, d: char, b: string, delims: set<char>)
    requires d in delims
    ensures Fields(a + [d] + b, delims) == Fields(a, delims) + Fields(b, delims)
    decreases |a|
  {
    var s := a + [d] + b;
    if a == "" {
      assert s[1..] == b;
    } else if a[0] in delims {
      assert s[1..] == a[1..] + [d] + b;
      FieldsSplit(a[1..], d, b, delims);
    } else {
      var n := Span(a, delims);
      SpanStops(a, d, b, delims);
      FieldsUnfold(s, delims);
      FieldsUnfold(a, delims);
      FieldsSplit(a[n..], d, b, delims);
      Regrouped([a[..n]], Fields(a[n..], delims), Fields(b, delims));
    }
  }

  function Concat(xs: seq<string>): string {
    if xs == [] then "" else xs[0] + Concat(xs[1..])
  }

  function Undelimited(s: string, delims: set<char>): string {
    if s == "" then "" else (if s[0] in delims then "" else [s[0]]) + Undelimited(s[1..], delims)
  }

  /** The fields are not empty and free of delimiters, and together they hold every other
      character of the string, in order. */
  lemma {:induction false} FieldsKeepEverything(s: string, delims: set<char>)
    ensures forall f <- Fields(s, delims) :: f != "" && forall c <- f :: c !in delims
    ensures Concat(Fields(s, delims)) == Undelimited(s, delims)
    decreases |s|
  {
    if s != "" {
      if s[0] in delims {
        FieldsKeepEverything(s[1..], delims);
      } else {
        var n := Span(s, delims);
        FieldsKeepEverything(s[n..], delims);
        UndelimitedSplit(s, n, delims);
        var f := Fields(s, delims);
        assert f[1..] == Fields(s[n..], delims);
      }
    }
  }

  lemma {:induction false} UndelimitedSplit(s: string, n: nat, delims: set<char>)
    requires n <= |s| && forall k :: 0 <= k < n ==> s[k] !in delims
    ensures Undelimited(s, delims) == s[..n] + Undelimited(s[n..], delims)
  {
    if n > 0 {
      UndelimitedSplit(s[1..], n - 1, delims);
      assert s[1..][n - 1..] == s[n..] && s[..n] == [s[0]] + s[1..][..n - 1];
    }
  }

  /* ---- strtok ---- */

  /** Positions are pointers into the buffer. */
  const NULL: int := -1

  function SkipFrom(m: seq<char>, p: nat, delims: set<char>): (q: nat)
    requires p <= |m|
    ensures p <= q <= |m| && (q < |m| ==> m[q] !in delims)
    decreases |m| - p
  {
    if p == |m| || m[p] !in delims then p else SkipFrom(m, p + 1, delims)
  }

  function TokenEnd(m: seq<char>, p: nat, delims: set<char>): (e: nat)
    requires p <= |m|
    ensures p <= e <= |m|
    decreases |m| - p
  {
    if p == |m| || m[p] == NUL || m[p] in delims then p else TokenEnd(m, p + 1, delims)
  }

  /** What one call makes of the memory, what it returns, and where the next one continues. */
  datatype Cut = Cut(m: seq<char>, token: int, saved: int)

  function CutFrom(m: seq<char>, from: int, delims: set<char>): (c: Cut)
    ensures |c.m| == |m|
  {
    if from < 0 || from > |m| then Cut(m, NULL, NULL)
    else
      var q := SkipFrom(m, from, delims);
      if q == |m| || m[q] == NUL then Cut(m, NULL, NULL)
      else
        var e := TokenEnd(m, q, delims);
        if e == |m| || m[e] == NUL then Cut(m, q, NULL) else Cut(m[e := NUL], q, e + 1)
  }

  ghost predicate Terminated(m: seq<char>, from: int) {
    from != NULL ==> 0 <= from <= |m| && End(m, from) < |m|
  }

  class Strtok {
    /** Where the next call continues. */
    var saved: int

    constructor ()
      ensures saved == NULL
    {
      saved := NULL;
    }

    method Next(buf: array<char>, start: int, delims: set<char>) returns (token: int)
      requires NUL !in delims && Terminated(buf[..], if start != NULL then start else saved)
      modifies this, buf
      ensures Cut(buf[..], token, saved) == CutFrom(old(buf[..]), if start != NULL then start else old(saved), delims)
    {
      var from := if start != NULL then start else saved;
      saved := NULL;
      if from == NULL {
        return NULL;
      }
      ghost var m := buf[..];
      var q := from;
      while buf[q] in delims
        invariant from <= q <= End(m, from) < buf.Length && SkipFrom(m, q, delims) == SkipFrom(m, from, delims)
        decreases buf.Length - q
      {
        q := q + 1;
      }
      if buf[q] == NUL {
        return NULL;
      }
      var e := q;
      while buf[e] != NUL && buf[e] !in delims
        invariant q <= e <= End(m, from) && TokenEnd(m, e, delims) == TokenEnd(m, q, delims)
        decreases buf.Length - e
      {
        e := e + 1;
      }
      if buf[e] != NUL {
        buf[e] := NUL;
        saved := e + 1;
      }
      return q;
    }
  }

  /** The fields still to come from a saved position. */
  function Rest(m: seq<char>, from: int, delims: set<char>): seq<string> {
    if 0 <= from <= |m| then Fields(Str(m, from), delims) else []
  }

  /** Memory below the limit is never cut again. */
  function Limit(from: int, size: nat): int {
    if from == NULL then size else from
  }

  /** Nothing but a delimiter is ever overwritten, and only with NUL. */
  ghost predicate OnlyCut(was: seq<char>, m: seq<char>, delims: set<char>) {
    |m| == |was| && forall k :: 0 <= k < |m| ==> m[k] == was[k] || (was[k] in delims && m[k] == NUL)
  }

  lemma {:induction false} SkipMeaning(m: seq<char>, p: nat, delims: set<char>)
    requires NUL !in delims && p <= |m|
    ensures
      var q, end := SkipFrom(m, p, delims), End(m, p);
      q <= end && End(m, q) == end && Fields(m[p..end], delims) == Fields(m[q..end], delims)
    decreases |m| - p
  {
    if p < |m| && m[p] in delims {
      SkipMeaning(m, p + 1, delims);
      assert m[p..End(m, p)][1..] == m[p + 1..End(m, p)];
    }
  }

  lemma {:induction false} TokenEndMeaning(m: seq<char>, q: nat, delims: set<char>)
    requires NUL !in delims && q <= |m|
    ensures
      var e, end := TokenEnd(m, q, delims), End(m, q);
      e <= end && End(m, e) == end && Span(m[q..end], delims) == e - q
    decreases |m| - q
  {
    if q < |m| && m[q] != NUL && m[q] !in delims {
      TokenEndMeaning(m, q + 1, delims);
      assert m[q..End(m, q)][1..] == m[q + 1..End(m, q)];
    }
  }

  /** The memory after a cut at e: the token ends there, the rest where it did. */
  lemma CutMemory(m: seq<char>, q: nat, e: nat)
    requires q <= e < |m| && e <= End(m, q) < |m|
    ensures
      var m' := m[e := NUL];
      && End(m', q) == e && Str(m', q) == m[q..e]
      && (e < End(m, q) ==> End(m', e + 1) == End(m, q) && Str(m', e + 1) == m[e + 1..End(m, q)])
  {
    var m' := m[e := NUL];
    EndIs(m', q, e);
    assert m'[q..e] == m[q..e];
    if e < End(m, q) {
      EndIs(m', e + 1, End(m, q));
      assert m'[e + 1..End(m, q)] == m[e + 1..End(m, q)];
    }
  }

  /** A token, and the fields behind the delimiter that ends it. */
  lemma FirstField(s: string, delims: set<char>)
    requires Span(s, delims) > 0
    ensures
      var n := Span(s, delims);
      Fields(s, delims) == [s[..n]] + if n < |s| then Fields(s[n + 1..], delims) else []
  {
    var n := Span(s, delims);
    FieldsUnfold(s, delims);
    if n < |s| {
      assert s[n..][0] == s[n] && s[n..][1..] == s[n + 1..];
    } else {
      assert s[n..] == "";
    }
  }

  lemma Slices(m: seq<char>, q: nat, e: nat, end: nat)
    requires q <= e <= end <= |m|
    ensures m[q..end][..e - q] == m[q..e]
    ensures e < end ==> m[q..end][e - q] == m[e] && m[q..end][e - q + 1..] == m[e + 1..end]
  {}

  /** The fields from a token's start: the token, and the fields behind the delimiter. */
  lemma FieldsFromToken(m: seq<char>, q: nat, e: nat, end: nat, delims: set<char>)
    requires q < e <= end <= |m| && Span(m[q..end], delims) == e - q
    ensures Fields(m[q..end], delims) == [m[q..e]] + if e < end then Fields(m[e + 1..end], delims) else []
    ensures e < end ==> m[e] in delims
  {
    FirstField(m[q..end], delims);
    Slices(m, q, e, end);
  }

  /** One call returns the next field, terminated for good, and leaves the others to come. */
  lemma CutMeaning(m: seq<char>, from: int, delims: set<char>)
    requires NUL !in delims && Terminated(m, from) && from >= NULL
    ensures Meaning(m, from, delims, CutFrom(m, from, delims))
  {
    if from != NULL {
      var end := End(m, from);
      SkipMeaning(m, from, delims);
      var q := SkipFrom(m, from, delims);
      if m[q] != NUL {
        TokenEndMeaning(m, q, delims);
        TokenMeaning(m, from, q, delims);
      }
    }
  }

  ghost predicate Meaning(m: seq<char>, from: int, delims: set<char>, c: Cut) {
    && |c.m| == |m| && NULL <= c.token <= |m| && Terminated(c.m, c.saved) && c.saved >= NULL
    && Rest(m, from, delims) == (if c.token == NULL then [] else [Str(c.m, c.token)] + Rest(c.m, c.saved, delims))
    && (c.token != NULL ==> Held(c.m, c.token, Limit(c.saved, |m|)))
    && 0 <= Limit(from, |m|) <= Limit(c.saved, |m|) <= |m|
    && c.m[..Limit(from, |m|)] == m[..Limit(from, |m|)]
    && OnlyCut(m, c.m, delims)
  }

  lemma TokenMeaning(m: seq<char>, from: nat, q: nat, delims: set<char>)
    requires NUL !in delims && from <= q < |m| && m[q] != NUL && m[q] !in delims
    requires End(m, from) == End(m, q) < |m| && Rest(m, from, delims) == Fields(Str(m, q), delims)
    requires q == SkipFrom(m, from, delims)
    ensures Meaning(m, from, delims, CutFrom(m, from, delims))
  {
    TokenEndMeaning(m, q, delims);
    var e, end := TokenEnd(m, q, delims), End(m, q);
    CutMemory(m, q, e);
    FieldsFromToken(m, q, e, end, delims);
    CutAt(m, from, q, e, end, delims, CutFrom(m, from, delims));
  }

  lemma CutAt(m: seq<char>, from: nat, q: nat, e: nat, end: nat, delims: set<char>, c: Cut)
    requires from <= q < e <= end < |m| && m[end] == NUL
    requires c == if e == end then Cut(m, q, NULL) else Cut(m[e := NUL], q, e + 1)
    requires End(m[e := NUL], q) == e && Str(m[e := NUL], q) == m[q..e]
    requires e < end ==> m[e] in delims && End(c.m, e + 1) == end && Str(c.m, e + 1) == m[e + 1..end]
    requires Rest(m, from, delims) == [m[q..e]] + if e < end then Fields(m[e + 1..end], delims) else []
    ensures Meaning(m, from, delims, c)
  {
    assert c.m == m[e := NUL];
    RestAfterCut(m, q, e, end, delims, c);
  }

  lemma RestAfterCut(m: seq<char>, q: nat, e: nat, end: nat, delims: set<char>, c: Cut)
    requires q < e <= end < |m| && |c.m| == |m| && c.saved == if e == end then NULL else e + 1
    requires e < end ==> Str(c.m, e + 1) == m[e + 1..end]
    ensures Rest(c.m, c.saved, delims) == if e < end then Fields(m[e + 1..end], delims) else []
  {}

  /* ---- The two levels ---- */

  const BARS: set<char> := {'|'}
  const BLANKS: set<char> := {' ', '\t', '\n'}

  /** While a loop stores token after token: `kept` holds the first fields, `token` is the next
      one, and what strtok has saved leads to the others. */
  ghost predicate Storing(was: seq<char>, m: seq<char>, fields: seq<string>, kept: seq<int>, token: int, saved: int,
      delims: set<char>) {
    && 0 <= Limit(saved, |m|) <= |m| && Pending(m, fields, |kept|, token, saved, delims)
    && AllHeld(m, fields, kept, Limit(saved, |m|))
    && OnlyCut(was, m, delims)
  }

  ghost predicate Pending(m: seq<char>, fields: seq<string>, n: nat, token: int, saved: int, delims: set<char>) {
    && NULL <= token <= |m| && saved >= NULL && Terminated(m, saved)
    && n <= |fields|
    && fields[n..] == (if token == NULL then [] else [Str(m, token)] + Rest(m, saved, delims))
    && (token != NULL ==> Limit(saved, |m|) >= 0 && Held(m, token, Limit(saved, |m|)))
  }

  ghost predicate AllHeld(m: seq<char>, fields: seq<string>, kept: seq<int>, limit: nat) {
    |kept| <= |fields| && forall j :: 0 <= j < |kept| ==>
      0 <= kept[j] && Held(m, kept[j], limit) && Str(m, kept[j]) == fields[j]
  }

  lemma FirstToken(m: seq<char>, from: nat, delims: set<char>)
    requires NUL !in delims && Terminated(m, from)
    ensures
      var c := CutFrom(m, from, delims);
      Storing(m, c.m, Fields(Str(m, from), delims), [], c.token, c.saved, delims)
  {
    CutMeaning(m, from, delims);
  }

  lemma AllHeldStays(m: seq<char>, m': seq<char>, fields: seq<string>, kept: seq<int>, limit: nat, limit': nat)
    requires AllHeld(m, fields, kept, limit) && |m'| == |m| && limit <= limit' <= |m| && m'[..limit] == m[..limit]
    ensures AllHeld(m', fields, kept, limit')
  {
    forall j | 0 <= j < |kept| ensures 0 <= kept[j] && Held(m', kept[j], limit') && Str(m', kept[j]) == fields[j] {
      HeldStays(m, m', kept[j], limit);
    }
  }

  lemma OnlyCutAgain(was: seq<char>, m: seq<char>, m': seq<char>, delims: set<char>)
    requires NUL !in delims && OnlyCut(was, m, delims) && OnlyCut(m, m', delims)
    ensures OnlyCut(was, m', delims)
  {}

  lemma AllHeldAndOne(m: seq<char>, fields: seq<string>, kept: seq<int>, token: int, limit: nat)
    requires AllHeld(m, fields, kept, limit) && |kept| < |fields|
    requires 0 <= token && Held(m, token, limit) && Str(m, token) == fields[|kept|]
    ensures AllHeld(m, fields, kept + [token], limit)
  {}

  lemma FieldsAfter(fields: seq<string>, n: nat, first: string, rest: seq<string>)
    requires n <= |fields| && fields[n..] == [first] + rest
    ensures n < |fields| && fields[n] == first && fields[n + 1..] == rest
  {
    assert fields[n..][0] == fields[n] && fields[n..][1..] == fields[n + 1..];
  }

  /** One turn of either loop: the earlier tokens stay intact. */
  lemma NextToken(was: seq<char>, m: seq<char>, fields: seq<string>, kept: seq<int>, token: int, saved: int,
      delims: set<char>, c: Cut)
    requires NUL !in delims && Storing(was, m, fields, kept, token, saved, delims) && token != NULL
    requires c == CutFrom(m, saved, delims)
    ensures Storing(was, c.m, fields, kept + [token], c.token, c.saved, delims)
  {
    CutMeaning(m, saved, delims);
    OneMoreStored(was, m, fields, kept, token, saved, delims, c);
  }

  lemma OneMorePending(m: seq<char>, fields: seq<string>, n: nat, token: int, saved: int, delims: set<char>, c: Cut)
    requires Pending(m, fields, n, token, saved, delims) && token != NULL && Meaning(m, saved, delims, c)
    ensures n < |fields| && fields[n] == Str(m, token) && Pending(c.m, fields, n + 1, c.token, c.saved, delims)
  {
    FieldsAfter(fields, n, Str(m, token), Rest(m, saved, delims));
  }

  lemma AllHeldNext(m: seq<char>, m': seq<char>, fields: seq<string>, kept: seq<int>, token: int, limit: nat,
      limit': nat)
    requires AllHeld(m, fields, kept, limit) && |kept| < |fields|
    requires 0 <= token && Held(m, token, limit) && Str(m, token) == fields[|kept|]
    requires |m'| == |m| && limit <= limit' <= |m| && m'[..limit] == m[..limit]
    ensures AllHeld(m', fields, kept + [token], limit')
  {
    AllHeldAndOne(m, fields, kept, token, limit);
    AllHeldStays(m, m', fields, kept + [token], limit, limit');
  }

  lemma OneMoreHeld(m: seq<char>, fields: seq<string>, kept: seq<int>, token: int, saved: int, delims: set<char>,
      c: Cut)
    requires 0 <= Limit(saved, |m|) <= |m| && Pending(m, fields, |kept|, token, saved, delims)
    requires AllHeld(m, fields, kept, Limit(saved, |m|)) && token != NULL && Meaning(m, saved, delims, c)
    ensures AllHeld(c.m, fields, kept + [token], Limit(c.saved, |m|))
  {
    FieldsAfter(fields, |kept|, Str(m, token), Rest(m, saved, delims));
    AllHeldNext(m, c.m, fields, kept, token, Limit(saved, |m|), Limit(c.saved, |m|));
  }

  lemma OneMoreStored(was: seq<char>, m: seq<char>, fields: seq<string>, kept: seq<int>, token: int, saved: int,
                      delims: set<char>, c: Cut)
    requires NUL !in delims && Storing(was, m, fields, kept, token, saved, delims) && token != NULL
    requires Meaning(m, saved, delims, c)
    ensures Storing(was, c.m, fields, kept + [token], c.token, c.saved, delims)
  {
    OneMorePending(m, fields, |kept|, token, saved, delims, c);
    OneMoreHeld(m, fields, kept, token, saved, delims, c);
    OnlyCutAgain(was, m, c.m, delims);
  }

  /** The texts that the pointers point to. */
  ghost predicate PointTo(m: seq<char>, pointers: seq<int>, texts: seq<string>) {
    |pointers| == |texts| && forall j :: 0 <= j < |texts| ==>
      0 <= pointers[j] <= |m| && End(m, pointers[j]) < |m| && Str(m, pointers[j]) == texts[j]
  }

  /** What separates words, and what separates commands. */
  lemma SeparatorsExactly(c: char)
    ensures Fields([c], BLANKS) == [] <==> c == ' ' || c == '\t' || c == '\n'
    ensures Fields([c], BARS) == [] <==> c == '|'
  {
    assert [c][1..] == "";
  }

  /** Words may be separated by any of these, and by as many as one likes. */
  lemma BlanksSeparate(a: string, c: char, b: string)
    requires c == ' ' || c == '\t' || c == '\n'
    ensures Fields(a + [c] + b, BLANKS) == Fields(a, BLANKS) + Fields(b, BLANKS)
  {
    FieldsSplit(a, c, b, BLANKS);
  }

  function Take<T>(xs: seq<T>, n: nat): seq<T> {
    if |xs| <= n then xs else xs[..n]
  }

  /** Both loops: store tokens until there is none left or `max` are stored. */
  function Stored(c: Cut, kept: seq<int>, max: nat, delims: set<char>): (Cut, seq<int>)
    decreases max - |kept|
  {
    if c.token == NULL || |kept| >= max then (c, kept)
    else Stored(CutFrom(c.m, c.saved, delims), kept + [c.token], max, delims)
  }

  lemma {:induction false} StoredMeaning(was: seq<char>, fields: seq<string>, c: Cut, kept: seq<int>, max: nat,
      delims: set<char>)
    requires NUL !in delims && Storing(was, c.m, fields, kept, c.token, c.saved, delims) && |kept| <= max
    ensures
      var (c', kept') := Stored(c, kept, max, delims);
      && |kept'| == |Take(fields, max)| <= max && PointTo(c'.m, kept', Take(fields, max)) && OnlyCut(was, c'.m, delims)
    decreases max - |kept|
  {
    if c.token != NULL {
      FieldsAfter(fields, |kept|, Str(c.m, c.token), Rest(c.m, c.saved, delims));
      if |kept| < max {
        var next := CutFrom(c.m, c.saved, delims);
        NextToken(was, c.m, fields, kept, c.token, c.saved, delims, next);
        StoredMeaning(was, fields, next, kept + [c.token], max, delims);
      }
    }
  }

  ghost predicate Kept(was: seq<char>, fields: seq<string>, r: (Cut, seq<int>), delims: set<char>) {
    |r.1| == |fields| && PointTo(r.0.m, r.1, fields) && OnlyCut(was, r.0.m, delims)
  }

  lemma StoredFrom(m: seq<char>, from: nat, max: nat, delims: set<char>)
    requires NUL !in delims && Terminated(m, from)
    ensures Kept(m, Take(Fields(Str(m, from), delims), max), Stored(CutFrom(m, from, delims), [], max, delims), delims)
  {
    FirstToken(m, from, delims);
    StoredMeaning(m, Fields(Str(m, from), delims), CutFrom(m, from, delims), [], max, delims);
  }

  /** The store of the final NULL into an array of `slots` pointers is out of bounds. */
  predicate NullOverruns(line: string, slots: nat) {
    |Fields(line, BARS)| >= slots
  }

  /** The loop of both levels. */
  method StoreTokens(buf: array<char>, start: nat, pointers: array<int>, max: nat, delims: set<char>) returns (n: nat)
    requires NUL !in delims && start < buf.Length && Terminated(buf[..], start) && max <= pointers.Length
    modifies buf, pointers
    ensures n <= max && PointTo(buf[..], pointers[..n], Take(Fields(Str(old(buf[..]), start), delims), max))
    ensures OnlyCut(old(buf[..]), buf[..], delims)
  {
    ghost var was, goal := buf[..], Stored(CutFrom(buf[..], start, delims), [], max, delims);
    StoredFrom(was, start, max, delims);
    CutTerminated(was, start, delims);
    var strtok := new Strtok();
    var token := strtok.Next(buf, start, delims);
    n := 0;
    while token != NULL && n < max
      invariant n <= max && Terminated(buf[..], strtok.saved)
      invariant Stored(Cut(buf[..], token, strtok.saved), pointers[..n], max, delims) == goal
      decreases max - n
    {
      pointers[n] := token;
      assert pointers[..n + 1] == pointers[..n] + [token];
      n := n + 1;
      CutTerminated(buf[..], strtok.saved, delims);
      token := strtok.Next(buf, NULL, delims);
    }
    assert goal == (Cut(buf[..], token, strtok.saved), pointers[..n]);
  }

  /** `overrun`: the final NULL is stored past the end of `commands`. */
  method SplitPipeline(buf: array<char>, commands: array<int>) returns (n: nat, overrun: bool)
    requires buf.Length > 0 && Terminated(buf[..], 0)
    modifies buf, commands
    ensures
      var fields := Take(Fields(Str(old(buf[..]), 0), BARS), commands.Length);
      && n == |fields| <= commands.Length
      && PointTo(buf[..], commands[..n], fields)
      && (overrun <==> NullOverruns(Str(old(buf[..]), 0), commands.Length))
      && (!overrun ==> commands[n] == NULL)
    ensures OnlyCut(old(buf[..]), buf[..], BARS)
  {
    n := StoreTokens(buf, 0, commands, commands.Length, BARS);
    overrun := n == commands.Length;
    if !overrun {
      ghost var kept := commands[..n];
      commands[n] := NULL;
      assert commands[..n] == kept;
    }
  }

  /** A command's words: what does not fit the argument vector is dropped, and there is always
      room for the final NULL. */
  method ParseCommand(buf: array<char>, cmd: nat, args: array<int>) returns (n: nat)
    requires cmd < buf.Length && Terminated(buf[..], cmd) && args.Length > 0
    modifies buf, args
    ensures
      var words := Take(Fields(Str(old(buf[..]), cmd), BLANKS), args.Length - 1);
      && n == |words| < args.Length
      && PointTo(buf[..], args[..n], words) && args[n] == NULL
    ensures OnlyCut(old(buf[..]), buf[..], BLANKS)
  {
    n := StoreTokens(buf, cmd, args, args.Length - 1, BLANKS);
    ghost var kept := args[..n];
    args[n] := NULL;
    assert args[..n] == kept;
  }

  lemma CutTerminated(m: seq<char>, from: int, delims: set<char>)
    requires NUL !in delims && Terminated(m, from)
    ensures Terminated(CutFrom(m, from, delims).m, CutFrom(m, from, delims).saved)
  {
    if from >= NULL {
      CutMeaning(m, from, delims);
    }
  }

  /* ---- The job-control shell's version ---- */

  function Spaces(s: string): (n: nat)
    ensures n <= |s| && (forall k :: 0 <= k < n ==> s[k] == ' ') && (n < |s| ==> s[n] != ' ')
  {
    if s == "" || s[0] != ' ' then 0 else 1 + Spaces(s[1..])
  }

  function Trimmed(texts: seq<string>): (r: seq<string>)
    ensures |r| == |texts| && forall i :: 0 <= i < |texts| ==> r[i] == texts[i][Spaces(texts[i])..]
  {
    seq(|texts|, i requires 0 <= i < |texts| => texts[i][Spaces(texts[i])..])
  }

  lemma SuffixInMemory(m: seq<char>, p: nat, k: nat)
    requires p <= |m| && k <= |Str(m, p)|
    ensures p + k <= |m| && End(m, p + k) == End(m, p) && Str(m, p + k) == Str(m, p)[k..]
    decreases k
  {
    if k > 0 {
      SuffixInMemory(m, p, k - 1);
    }
  }

  method TrimLeft(buf: array<char>, p: nat) returns (q: nat)
    requires p < buf.Length && Terminated(buf[..], p)
    ensures q == p + Spaces(Str(buf[..], p))
  {
    q := p;
    ghost var m, text := buf[..], Str(buf[..], p);
    while buf[q] == ' '
      invariant p <= q <= End(m, p) < buf.Length
      invariant forall k :: 0 <= k < q - p ==> text[k] == ' '
      decreases buf.Length - q
    {
      assert text[q - p] == m[q];
      q := q + 1;
    }
    SpacesAre(text, q - p) by {
      assert q < End(m, p) ==> text[q - p] == m[q];
    }
  }

  lemma {:induction false} SpacesAre(s: string, n: nat)
    requires n <= |s| && (forall k :: 0 <= k < n ==> s[k] == ' ') && (n < |s| ==> s[n] != ' ')
    ensures Spaces(s) == n
  {
    if n > 0 {
      SpacesAre(s[1..], n - 1);
    }
  }

  /** Where the trimmed tokens start. */
  ghost predicate TrimmedAt(pointers: seq<int>, kept: seq<int>, fields: seq<string>) {
    |pointers| == |kept| <= |fields| && forall j :: 0 <= j < |kept| ==> pointers[j] == kept[j] + Spaces(fields[j])
  }

  lemma TrimmedPoint(m: seq<char>, pointers: seq<int>, kept: seq<int>, fields: seq<string>, texts: seq<string>)
    requires TrimmedAt(pointers, kept, fields) && PointTo(m, kept, texts)
    requires |texts| <= |fields| && texts == fields[..|texts|]
    ensures PointTo(m, pointers, Trimmed(texts))
  {
    forall j | 0 <= j < |texts| ensures
      0 <= pointers[j] <= |m| && End(m, pointers[j]) < |m| && Str(m, pointers[j]) == Trimmed(texts)[j]
    {
      assert texts[j] == fields[j];
      SuffixInMemory(m, kept[j], Spaces(texts[j]));
    }
  }

  lemma NextHeld(was: seq<char>, m: seq<char>, fields: seq<string>, kept: seq<int>, token: int, saved: int,
      delims: set<char>)
    requires Storing(was, m, fields, kept, token, saved, delims) && token != NULL
    ensures |kept| < |fields| && 0 <= token < |m| && End(m, token) < |m| && Str(m, token) == fields[|kept|]
  {
    FieldsAfter(fields, |kept|, Str(m, token), Rest(m, saved, delims));
  }

  /** The job-control shell keeps each command's text for "sh -c", without the blanks before it;
      it stores no final NULL. */
  method ParsePipeline(buf: array<char>, commands: array<int>) returns (count: nat)
    requires buf.Length > 0 && Terminated(buf[..], 0)
    modifies buf, commands
    ensures
      var fields := Take(Fields(Str(old(buf[..]), 0), BARS), commands.Length);
      count == |fields| <= commands.Length && PointTo(buf[..], commands[..count], Trimmed(fields))
    ensures OnlyCut(old(buf[..]), buf[..], BARS)
  {
    ghost var was, fields := buf[..], Fields(Str(buf[..], 0), BARS);
    ghost var kept: seq<int> := [];
    count := 0;
    var strtok := new Strtok();
    FirstToken(was, 0, BARS);
    var token := strtok.Next(buf, 0, BARS);
    while token != NULL && count < commands.Length
      invariant count == |kept| <= commands.Length
      invariant Storing(was, buf[..], fields, kept, token, strtok.saved, BARS)
      invariant TrimmedAt(commands[..count], kept, fields)
      decreases commands.Length - count
    {
      NextHeld(was, buf[..], fields, kept, token, strtok.saved, BARS);
      var start := TrimLeft(buf, token);
      StoreOne(commands[..], count, start, kept, token, fields);
      commands[count] := start;
      ghost var c := CutFrom(buf[..], strtok.saved, BARS);
      NextToken(was, buf[..], fields, kept, token, strtok.saved, BARS, c);
      kept, count := kept + [token], count + 1;
      token := strtok.Next(buf, NULL, BARS);
      assert Cut(buf[..], token, strtok.saved) == c;
    }
    ParseEnds(was, Cut(buf[..], token, strtok.saved), fields, commands[..count], kept, commands.Length);
  }

  lemma ParseEnds(was: seq<char>, c: Cut, fields: seq<string>, pointers: seq<int>, kept: seq<int>, max: nat)
    requires Storing(was, c.m, fields, kept, c.token, c.saved, BARS) && TrimmedAt(pointers, kept, fields)
    requires |kept| <= max && (c.token == NULL || |kept| == max)
    ensures |kept| == |Take(fields, max)| && PointTo(c.m, pointers, Trimmed(Take(fields, max))) &&
      OnlyCut(was, c.m, BARS)
  {
    StoredMeaning(was, fields, c, kept, max, BARS);
    TrimmedPoint(c.m, pointers, kept, fields, Take(fields, max));
  }

  lemma StoreOne(cells: seq<int>, n: nat, start: int, kept: seq<int>, token: int, fields: seq<string>)
    requires n < |cells| && TrimmedAt(cells[..n], kept, fields) && n < |fields| && start == token + Spaces(fields[n])
    ensures TrimmedAt(cells[n := start][..n + 1], kept + [token], fields)
  {
    assert cells[n := start][..n + 1] == cells[..n] + [start];
  }

  /* ---- A whole line ---- */

  /** The words of one command, as many as there is room for. */
  function Words(text: string, maxWords: nat): seq<string> {
    Take(Fields(text, BLANKS), maxWords)
  }

  /** What the children execute: the words of each command, as many as there is room for. */
  function Commands(line: string, maxCommands: nat, maxWords: nat): seq<seq<string>> {
    var texts := Take(Fields(line, BARS), maxCommands);
    seq(|texts|, i requires 0 <= i < |texts| => Words(texts[i], maxWords))
  }

  function Argv(m: seq<char>, args: seq<int>): seq<string>
    requires forall j :: 0 <= j < |args| ==> 0 <= args[j] <= |m|
  {
    seq(|args|, j requires 0 <= j < |args| => Str(m, args[j]))
  }

  lemma ArgvIs(m: seq<char>, args: seq<int>, words: seq<string>)
    requires PointTo(m, args, words)
    ensures (forall j :: 0 <= j < |args| ==> 0 <= args[j] <= |m|) && Argv(m, args) == words
  {}

  /** The parent splits the line; each child then cuts its own copy of the buffer. */
  method RunLine(buf: array<char>, maxCommands: nat, maxArgs: nat) returns (argvs: seq<seq<string>>, overrun: bool)
    requires buf.Length > 0 && Terminated(buf[..], 0) && maxArgs > 0
    modifies buf
    ensures !overrun ==> argvs == Commands(Str(old(buf[..]), 0), maxCommands, maxArgs - 1)
    ensures overrun <==> NullOverruns(Str(old(buf[..]), 0), maxCommands)
  {
    ghost var line := Str(buf[..], 0);
    ghost var texts := Take(Fields(line, BARS), maxCommands);
    var commands := new int[maxCommands](_ => NULL);
    var n;
    n, overrun := SplitPipeline(buf, commands);
    argvs := RunChildren(buf, commands, n, texts, maxArgs);
    CommandsAre(line, maxCommands, maxArgs - 1, argvs);
  }

  method RunChildren(buf: array<char>, commands: array<int>, n: nat, ghost texts: seq<string>, maxArgs: nat)
      returns (argvs: seq<seq<string>>)
    requires n <= commands.Length && PointTo(buf[..], commands[..n], texts) && maxArgs > 0
    ensures |argvs| == |texts| && forall j :: 0 <= j < |argvs| ==> argvs[j] == Words(texts[j], maxArgs - 1)
  {
    argvs := [];
    while |argvs| < n
      invariant |argvs| <= n
      invariant forall j :: 0 <= j < |argvs| ==> argvs[j] == Words(texts[j], maxArgs - 1)
    {
      var i := |argvs|;
      PointsTo(buf[..], commands[..n], texts, i);
      assert commands[..n][i] == commands[i];
      var argv := RunChild(buf, commands[i], maxArgs);
      argvs := argvs + [argv];
    }
  }

  lemma CommandsAre(line: string, maxCommands: nat, maxWords: nat, argvs: seq<seq<string>>)
    requires |argvs| == |Take(Fields(line, BARS), maxCommands)|
    requires forall j :: 0 <= j < |argvs| ==>
      argvs[j] == Words(Take(Fields(line, BARS), maxCommands)[j], maxWords)
    ensures argvs == Commands(line, maxCommands, maxWords)
  {}

  lemma PointsTo(m: seq<char>, pointers: seq<int>, texts: seq<string>, i: nat)
    requires PointTo(m, pointers, texts) && i < |pointers|
    ensures 0 <= pointers[i] < |m| && End(m, pointers[i]) < |m| && Str(m, pointers[i]) == texts[i]
  {}

  method RunChild(buf: array<char>, cmd: nat, maxArgs: nat) returns (argv: seq<string>)
    requires cmd < buf.Length && Terminated(buf[..], cmd) && maxArgs > 0
    ensures argv == Words(Str(buf[..], cmd), maxArgs - 1)
  {
    var copy := new char[buf.Length](k requires 0 <= k < buf.Length reads buf => buf[k]);
    assert copy[..] == buf[..];
    var args := new int[maxArgs](_ => NULL);
    var n := ParseCommand(copy, cmd, args);
    ArgvIs(copy[..], args[..n], Take(Fields(Str(buf[..], cmd), BLANKS), maxArgs - 1));
    argv := Argv(copy[..], args[..n]);
  }

  /* ---- Round trip ---- */

  predicate IsWord(w: string) {
    w != "" && forall c <- w :: c !in BLANKS && c !in BARS && c != NUL
  }

  predicate IsPipeline(p: seq<seq<string>>) {
    p != [] && forall i :: 0 <= i < |p| ==> IsCommand(p[i])
  }

  predicate IsCommand(words: seq<string>) {
    words != [] && forall j :: 0 <= j < |words| ==> IsWord(words[j])
  }

  function RenderWords(words: seq<string>): string
    requires words != []
  {
    if |words| == 1 then words[0] else words[0] + " " + RenderWords(words[1..])
  }

  /** "ls -l | wc", with the newline that fgets keeps; `lead` comes before the first command. */
  function RenderFrom(lead: string, p: seq<seq<string>>): string
    requires IsPipeline(p)
    decreases |p|
  {
    if |p| == 1 then lead + RenderWords(p[0]) + "\n"
    else lead + RenderWords(p[0]) + " " + "|" + RenderFrom(" ", p[1..])
  }

  function Render(p: seq<seq<string>>): string
    requires IsPipeline(p)
  {
    RenderFrom("", p)
  }

  lemma CleanField(w: string, delims: set<char>)
    requires w != "" && forall c <- w :: c !in delims
    ensures Fields(w, delims) == [w]
  {
    SpanIs(w, delims, |w|);
    assert w[..|w|] == w && w[|w|..] == "";
  }

  lemma {:induction false} WordsComeBack(words: seq<string>)
    requires IsCommand(words)
    ensures Fields(RenderWords(words), BLANKS) == words
    ensures RenderWords(words) != "" && forall c <- RenderWords(words) :: c !in BARS && c != NUL
    decreases |words|
  {
    CleanField(words[0], BLANKS);
    if |words| > 1 {
      var rest := words[1..];
      WordsComeBack(rest);
      FieldsSplit(words[0], ' ', RenderWords(rest), BLANKS);
      assert words == [words[0]] + rest;
    }
  }

  /** The text of one command on the line, blanks around it included. */
  function Padded(lead: string, words: seq<string>, trail: string): string
    requires words != []
  {
    lead + RenderWords(words) + trail
  }

  lemma PaddedComesBack(lead: string, words: seq<string>, trail: string)
    requires IsCommand(words) && lead in {"", " "} && trail in {" ", "\n"}
    ensures Fields(Padded(lead, words, trail), BLANKS) == words
    ensures Fields(Padded(lead, words, trail), BARS) == [Padded(lead, words, trail)]
    ensures forall c <- Padded(lead, words, trail) :: c != NUL
  {
    WordsComeBack(words);
    var text := RenderWords(words);
    if lead == "" {
      assert lead + text == text;
    } else {
      assert (lead + text)[1..] == text;
    }
    FieldsSplit(lead + text, trail[0], "", BLANKS);
    assert lead + text + trail == lead + text + [trail[0]] + "";
    CleanField(Padded(lead, words, trail), BARS);
  }

  /** The texts' words, when one text is put in front. */
  lemma OneMoreText(first: string, others: seq<string>, p: seq<seq<string>>)
    requires p != [] && Fields(first, BLANKS) == p[0] && |others| == |p| - 1
    requires forall i :: 0 <= i < |p| - 1 ==> Fields(others[i], BLANKS) == p[1..][i]
    ensures forall i :: 0 <= i < |p| ==> Fields(([first] + others)[i], BLANKS) == p[i]
  {
    forall i | 0 < i < |p| ensures Fields(([first] + others)[i], BLANKS) == p[i] {
      assert ([first] + others)[i] == others[i - 1] && p[1..][i - 1] == p[i];
    }
  }

  lemma RenderOneMore(lead: string, p: seq<seq<string>>)
    requires IsPipeline(p) && |p| > 1
    ensures IsPipeline(p[1..])
    ensures RenderFrom(lead, p) == Padded(lead, p[0], " ") + ['|'] + RenderFrom(" ", p[1..])
  {
    assert forall i :: 0 <= i < |p| - 1 ==> p[1..][i] == p[i + 1];
  }

  lemma {:induction false} LineComesBack(lead: string, p: seq<seq<string>>)
    requires IsPipeline(p) && lead in {"", " "}
    ensures
      var texts := Fields(RenderFrom(lead, p), BARS);
      |texts| == |p| && forall i :: 0 <= i < |p| ==> Fields(texts[i], BLANKS) == p[i]
    ensures forall c <- RenderFrom(lead, p) :: c != NUL
    decreases |p|
  {
    if |p| == 1 {
      PaddedComesBack(lead, p[0], "\n");
    } else {
      PaddedComesBack(lead, p[0], " ");
      RenderOneMore(lead, p);
      LineComesBack(" ", p[1..]);
      var first, others := Padded(lead, p[0], " "), RenderFrom(" ", p[1..]);
      FieldsSplit(first, '|', others, BARS);
      OneMoreText(first, Fields(others, BARS), p);
    }
  }

  /** Rendering any pipeline of fewer commands than there are slots, of words within the limit,
      and cutting it at both levels gives it back, whatever is in memory behind its NUL. */
  lemma RoundTrip(p: seq<seq<string>>, maxCommands: nat, maxWords: nat, m: seq<char>)
    requires IsPipeline(p) && |p| < maxCommands && forall i :: 0 <= i < |p| ==> |p[i]| <= maxWords
    requires |m| > |Render(p)| && m[..|Render(p)|] == Render(p) && m[|Render(p)|] == NUL
    ensures Terminated(m, 0) && Str(m, 0) == Render(p) && !NullOverruns(Str(m, 0), maxCommands)
    ensures Commands(Str(m, 0), maxCommands, maxWords) == p
  {
    LineComesBack("", p);
    var line := Render(p);
    forall k | 0 <= k < |line| ensures m[k] != NUL {
      assert m[k] == m[..|line|][k] == line[k] && line[k] in line;
    }
    EndIs(m, 0, |line|);
  }

  /** The final NULL of a rendered line is stored out of bounds if and only if the pipeline has
      at least as many commands as there are slots. */
  lemma NullFitsExactly(p: seq<seq<string>>, slots: nat)
    requires IsPipeline(p)
    ensures NullOverruns(Render(p), slots) <==> |p| >= slots
  {
    LineComesBack("", p);
  }

  const MAX_CMDS := 5

  const FIVE_COMMANDS := "a|" + ("b|" + ("c|" + ("d|" + "e\n")))

  lemma OneMoreCommand(first: string, rest: string)
    requires first != "" && forall c <- first :: c !in BARS
    ensures |Fields(first + "|" + rest, BARS)| == 1 + |Fields(rest, BARS)|
  {
    CleanField(first, BARS);
    FieldsSplit(first, '|', rest, BARS);
  }

  /** Five commands, which the shell announces as its limit, overrun its five slots. */
  lemma FiveCommandsOverrun()
    ensures NullOverruns(FIVE_COMMANDS, MAX_CMDS)
  {
    CleanField("e\n", BARS);
    OneMoreCommand("d", "e\n");
    OneMoreCommand("c", "d|" + "e\n");
    OneMoreCommand("b", "c|" + ("d|" + "e\n"));
    OneMoreCommand("a", "b|" + ("c|" + ("d|" + "e\n")));
    assert "a" + "|" == "a|" && "b" + "|" == "b|" && "c" + "|" == "c|" && "d" + "|" == "d|";
  }
}
