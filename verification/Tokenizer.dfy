/**
 strtok (lib/string.c; section 7.24.5.8 of ISO/IEC 9899:2018): the static cursor, the NULs written into the
 caller's string, and what repeated calls return.
 */
module Tokenizer {
  import opened Common

  /** The C string at `p`: the bytes before the first NUL. */
  function CString(text: seq<byte>, p: nat): (s: seq<byte>)
    requires p <= |text|
    ensures p + |s| <= |text|
    decreases |text| - p
  {
    if p == |text| || text[p] == 0 then [] else [text[p]] + CString(text, p + 1)
  }

  /** There is a NUL at or after `p`. */
  predicate Terminated(text: seq<byte>, p: nat) {
    p < |text| && p + |CString(text, p)| < |text|
  }

  /** The first position from `i` on that holds no delimiter. */
  function Skip(s: seq<byte>, d: seq<byte>, i: nat): (a: nat)
    requires i <= |s|
    ensures i <= a <= |s|
    decreases |s| - i
  {
    if i < |s| && s[i] in d then Skip(s, d, i + 1) else i
  }

  /** The first position from `i` on that holds a delimiter. */
  function RunEnd(s: seq<byte>, d: seq<byte>, i: nat): (b: nat)
    requires i <= |s|
    ensures i <= b <= |s|
    decreases |s| - i
  {
    if i < |s| && s[i] !in d then RunEnd(s, d, i + 1) else i
  }

  lemma {:induction false} Bytes(text: seq<byte>, p: nat)
    requires p <= |text|
    ensures forall k :: p <= k < p + |CString(text, p)| ==> text[k] == CString(text, p)[k - p] && text[k] != 0
    ensures p + |CString(text, p)| < |text| ==> text[p + |CString(text, p)|] == 0
    decreases |text| - p
  {
    if p < |text| && text[p] != 0 {
      Bytes(text, p + 1);
    }
  }

  lemma {:induction false} SkipIs(s: seq<byte>, d: seq<byte>, i: nat, a: nat)
    requires i <= a <= |s|
    ensures Skip(s, d, i) == a <==> (forall k :: i <= k < a ==> s[k] in d) && (a < |s| ==> s[a] !in d)
    decreases |s| - i
  {
    if i < |s| && s[i] in d && i < a {
      SkipIs(s, d, i + 1, a);
    }
  }

  lemma {:induction false} RunEndIs(s: seq<byte>, d: seq<byte>, i: nat, b: nat)
    requires i <= b <= |s|
    ensures RunEnd(s, d, i) == b <==> (forall k :: i <= k < b ==> s[k] !in d) && (b < |s| ==> s[b] in d)
    decreases |s| - i
  {
    if i < |s| && s[i] !in d && i < b {
      RunEndIs(s, d, i + 1, b);
    }
  }

  // ---------------------------------------------------------------- one call

  /** The memory the strings live in, and `tok_tmp`. */
  datatype State = State(text: seq<byte>, tok: Option<nat>)

  function Scan(text: seq<byte>, p: nat, d: seq<byte>): (State, Option<nat>)
    requires Terminated(text, p)
  {
    var s := CString(text, p);
    var a := Skip(s, d, 0);
    var b := RunEnd(s, d, a);
    if a == |s| then (State(text, None), None)
    else if b == |s| then (State(text, None), Some(p + a))
    else (State(text[p + b := 0], Some(p + b + 1)), Some(p + a))
  }

  /** The pointer a call starts from. */
  function Start(st: State, s1: Option<nat>): Option<nat> {
    if s1.Some? then s1 else st.tok
  }

  predicate Callable(st: State, s1: Option<nat>) {
    Start(st, s1).Some? ==> Terminated(st.text, Start(st, s1).value)
  }

  function Call(st: State, s1: Option<nat>, d: seq<byte>): (State, Option<nat>)
    requires Callable(st, s1)
  {
    if Start(st, s1).Some? then Scan(st.text, Start(st, s1).value, d) else (st, None)
  }

  /** Lines 65-72: one loop over both strings. */
  method SkipLeading(text: array<byte>, p: nat, s2: seq<byte>) returns (q: nat)
    requires Terminated(text[..], p) && 0 !in s2
    ensures q == p + Skip(CString(text[..], p), s2, 0)
  {
    ghost var s := CString(text[..], p);
    Bytes(text[..], p);
    hide CString, Skip;
    q := p;
    var i := 0;
    while i < |s2| && text[q] != 0
      invariant p <= q <= p + |s| && i <= |s2|
      invariant forall k :: 0 <= k < q - p ==> s[k] in s2
      invariant forall k :: 0 <= k < i ==> text[q] != s2[k]
      decreases p + |s| - q, |s2| - i
    {
      if text[q] == s2[i] {
        q := q + 1;
        i := 0;
      } else {
        i := i + 1;
      }
    }
    SkipIs(s, s2, 0, q - p);
  }

  /** Lines 80-89, up to the first delimiter or the end of the string. */
  method FindDelimiter(text: array<byte>, q: nat, s2: seq<byte>, ghost p: nat) returns (t: nat)
    requires Terminated(text[..], p) && 0 !in s2 && p <= q <= p + |CString(text[..], p)|
    ensures t == p + RunEnd(CString(text[..], p), s2, q - p)
  {
    ghost var s := CString(text[..], p);
    Bytes(text[..], p);
    hide CString, RunEnd;
    t := q;
    while text[t] != 0
      invariant q <= t <= p + |s|
      invariant forall k :: q - p <= k < t - p ==> s[k] !in s2
      decreases p + |s| - t
    {
      var i := 0;
      while i < |s2|
        invariant i <= |s2| && forall k :: 0 <= k < i ==> text[t] != s2[k]
      {
        if text[t] == s2[i] {
          RunEndIs(s, s2, q - p, t - p);
          return;
        }
        i := i + 1;
      }
      t := t + 1;
    }
    RunEndIs(s, s2, q - p, t - p);
  }

  /** Lines 64-93 */
  method ScanFrom(text: array<byte>, p: nat, s2: seq<byte>) returns (tok: Option<nat>, r: Option<nat>)
    requires Terminated(text[..], p) && 0 !in s2
    modifies text
    ensures (State(text[..], tok), r) == Scan(old(text[..]), p, s2)
  {
    ghost var s := CString(text[..], p);
    Bytes(text[..], p);
    hide CString, Skip, RunEnd;
    var q := SkipLeading(text, p, s2);
    if text[q] == 0 {
      return None, None;
    }
    var t := FindDelimiter(text, q, s2, p);
    r := Some(q);
    if text[t] != 0 {
      text[t] := 0;
      tok := Some(t + 1);
    } else {
      tok := None;
    }
  }

  class StrTok {
    const text: array<byte>
    var tok: Option<nat>

    constructor (text: array<byte>)
      ensures this.text == text && tok == None
    {
      this.text := text;
      tok := None;
    }

    function Abstract(): State
      reads this, text
    {
      State(text[..], tok)
    }

    method Next(s1: Option<nat>, s2: seq<byte>) returns (r: Option<nat>)
      requires Callable(Abstract(), s1) && 0 !in s2
      modifies `tok, text
      ensures (Abstract(), r) == Call(old(Abstract()), s1, s2)
    {
      hide Terminated, Scan;
      var p: nat;
      if s1.Some? {
        p := s1.value;
      } else {
        if tok.None? {
          return None;
        }
        p := tok.value;
      }
      var tok';
      tok', r := ScanFrom(text, p, s2);
      tok := tok';
    }
  }

  // ---------------------------------------------------------------- what a call leaves in memory

  lemma {:induction false} CStringSuffix(text: seq<byte>, p: nat, j: nat)
    requires p <= |text| && j <= |CString(text, p)|
    ensures CString(text, p + j) == CString(text, p)[j..]
    decreases j
  {
    if j > 0 {
      CStringSuffix(text, p + 1, j - 1);
    }
  }

  lemma {:induction false} CStringFrame(text: seq<byte>, text': seq<byte>, p: nat)
    requires p <= |text| == |text'| && forall k :: p <= k < |text| ==> text'[k] == text[k]
    ensures CString(text', p) == CString(text, p)
    decreases |text| - p
  {
    if p < |text| && text[p] != 0 {
      CStringFrame(text, text', p + 1);
    }
  }

  lemma {:induction false} CStringCut(text: seq<byte>, p: nat, n: nat)
    requires p <= |text| && n <= |CString(text, p)| && p + n < |text|
    ensures CString(text[p + n := 0], p) == CString(text, p)[..n]
    decreases n
  {
    if n > 0 {
      CStringCut(text, p + 1, n - 1);
    }
  }

  /** Cutting at a delimiter leaves the token before it and the rest of the string after it. */
  lemma CutLeaves(text: seq<byte>, p: nat, a: nat, b: nat)
    requires Terminated(text, p) && a <= b < |CString(text, p)|
    ensures var s, text' := CString(text, p), text[p + b := 0];
            && CString(text', p + a) == s[a..b]
            && CString(text', p + b + 1) == s[b + 1..] && Terminated(text', p + b + 1)
  {
    var s, text' := CString(text, p), text[p + b := 0];
    CStringSuffix(text, p, a);
    CStringCut(text, p + a, b - a);
    CStringSuffix(text, p, b + 1);
    CStringFrame(text, text', p + b + 1);
    hide CString;
    assert s[a..][..b - a] == s[a..b];
  }

  // ---------------------------------------------------------------- repeated calls

  /** The next call may continue where this one stopped, and starts further on. */
  lemma CallKeeps(st: State, s1: Option<nat>, d: seq<byte>)
    requires Callable(st, s1)
    ensures var st' := Call(st, s1, d).0;
            && Callable(st', None) && |st'.text| == |st.text|
            && (st'.tok.Some? ==> Start(st, s1).Some? && Start(st, s1).value < st'.tok.value)
  {
    if Start(st, s1).Some? {
      var p := Start(st, s1).value;
      var s := CString(st.text, p);
      var a := Skip(s, d, 0);
      var b := RunEnd(s, d, a);
      if a < |s| && b < |s| {
        CutLeaves(st.text, p, a, b);
      }
    }
  }

  function Remaining(st: State, s1: Option<nat>): nat
    requires Callable(st, s1)
  {
    if Start(st, s1).Some? then |st.text| - Start(st, s1).value else 0
  }

  /** What is returned by calling with `s1` and then with NULL, until NULL comes back. */
  function Pointers(st: State, s1: Option<nat>, d: seq<byte>): seq<nat>
    requires Callable(st, s1)
    decreases Remaining(st, s1)
  {
    var (st', r) := Call(st, s1, d);
    CallKeeps(st, s1, d);
    if r.None? then [] else [r.value] + Pointers(st', None, d)
  }

  /** The strings found there, each read right after its call. */
  function Collect(st: State, s1: Option<nat>, d: seq<byte>): seq<seq<byte>>
    requires Callable(st, s1)
    decreases Remaining(st, s1)
  {
    var (st', r) := Call(st, s1, d);
    CallKeeps(st, s1, d);
    if r.None? || r.value > |st'.text| then []
    else [CString(st'.text, r.value)] + Collect(st', None, d)
  }

  /** The state after the call that returned NULL. */
  function Last(st: State, s1: Option<nat>, d: seq<byte>): State
    requires Callable(st, s1)
    decreases Remaining(st, s1)
  {
    var (st', r) := Call(st, s1, d);
    CallKeeps(st, s1, d);
    if r.None? then st' else Last(st', None, d)
  }

  /** The delimiter-free pieces of `s` from position `i` on. */
  function Tokens(s: seq<byte>, d: seq<byte>, i: nat): seq<seq<byte>>
    requires i <= |s|
    decreases |s| - i
  {
    var a := Skip(s, d, i);
    var b := RunEnd(s, d, a);
    if a == |s| then []
    else [s[a..b]] + if b == |s| then [] else Tokens(s, d, b + 1)
  }

  /** Scanning a suffix `c` of `s` finds the same positions, counted from its start. */
  lemma {:induction false} ShiftScan(s: seq<byte>, c: seq<byte>, d: seq<byte>, i: nat, j: nat)
    requires i <= j <= |s| && c == s[i..]
    ensures Skip(c, d, j - i) == Skip(s, d, j) - i
    ensures RunEnd(c, d, j - i) == RunEnd(s, d, j) - i
    decreases |s| - j
  {
    if j < |s| {
      ShiftScan(s, c, d, i, j + 1);
    }
  }

  lemma SliceOf(s: seq<byte>, c: seq<byte>, i: nat, a: nat, b: nat)
    requires i <= a <= b <= |s| && c == s[i..]
    ensures c[a - i..b - i] == s[a..b]
  {
  }

  /** One call returns the first token, cut out of memory as a string of its own. */
  lemma FirstToken(text: seq<byte>, p: nat, d: seq<byte>)
    requires Terminated(text, p)
    ensures var s := CString(text, p);
            var a := Skip(s, d, 0);
            var b := RunEnd(s, d, a);
            var (st', r) := Scan(text, p, d);
            if a == |s| then r == None && st' == State(text, None)
            else
              && r == Some(p + a) && p + a <= |st'.text| && CString(st'.text, p + a) == s[a..b]
              && if b == |s| then st'.tok == None
                 else st'.tok == Some(p + b + 1) && Terminated(st'.text, p + b + 1)
                      && CString(st'.text, p + b + 1) == s[b + 1..]
  {
    var s := CString(text, p);
    var a := Skip(s, d, 0);
    var b := RunEnd(s, d, a);
    hide CString, Skip, RunEnd;
    if a < |s| {
      if b < |s| {
        CutLeaves(text, p, a, b);
      } else {
        CStringSuffix(text, p, a);
        assert s[a..] == s[a..b];
      }
    }
  }

  lemma TokensFrom(s: seq<byte>, d: seq<byte>, i: nat, a: nat, b: nat)
    requires i <= |s| && a == Skip(s, d, i) && b == RunEnd(s, d, a)
    ensures a == |s| ==> Tokens(s, d, i) == []
    ensures a < |s| == b ==> Tokens(s, d, i) == [s[a..b]]
    ensures a < |s| && b < |s| ==> Tokens(s, d, i) == [s[a..b]] + Tokens(s, d, b + 1)
  {
  }

  lemma {:induction false} TokensShift(s: seq<byte>, c: seq<byte>, d: seq<byte>, i: nat, j: nat)
    requires i <= j <= |s| && c == s[i..]
    ensures Tokens(c, d, j - i) == Tokens(s, d, j)
    decreases |s| - j
  {
    hide Skip, RunEnd, Tokens;
    var a := Skip(s, d, j);
    var b := RunEnd(s, d, a);
    ShiftScan(s, c, d, i, j);
    ShiftScan(s, c, d, i, a);
    SliceOf(s, c, i, a, b);
    TokensFrom(s, d, j, a, b);
    TokensFrom(c, d, j - i, a - i, b - i);
    if a < |s| && b < |s| {
      TokensShift(s, c, d, i, b + 1);
    }
  }

  lemma {:induction false} CStringKept(text: seq<byte>, text': seq<byte>, p: nat)
    requires p < |text| == |text'| && p + |CString(text, p)| < |text|
    requires forall k :: p <= k <= p + |CString(text, p)| ==> text'[k] == text[k]
    ensures CString(text', p) == CString(text, p)
    decreases |text| - p
  {
    Bytes(text, p);
    if text[p] != 0 {
      CStringKept(text, text', p + 1);
    }
  }

  /** Calls write only at or after the place they start from. */
  lemma {:induction false} LaterCallsLeave(st: State, s1: Option<nat>, d: seq<byte>)
    requires Callable(st, s1)
    ensures |Last(st, s1, d).text| == |st.text|
    ensures forall k :: 0 <= k < |st.text| && (Start(st, s1).Some? ==> k < Start(st, s1).value) ==>
              Last(st, s1, d).text[k] == st.text[k]
    ensures Last(st, s1, d).tok == None
    decreases Remaining(st, s1)
  {
    hide CString, Skip, RunEnd;
    CallKeeps(st, s1, d);
    var (st', r) := Call(st, s1, d);
    if r.Some? {
      LaterCallsLeave(st', None, d);
    }
  }

  /** What the first call returns is still there at the end. */
  lemma FirstTokenStays(st: State, s1: Option<nat>, d: seq<byte>)
    requires Callable(st, s1) && Start(st, s1).Some?
    ensures var (st', r) := Call(st, s1, d);
            r.Some? ==>
              && r.value <= |st'.text| && r.value <= |Last(st, s1, d).text|
              && CString(Last(st, s1, d).text, r.value) == CString(st'.text, r.value)
  {
    hide CString, Skip, RunEnd;
    var p := Start(st, s1).value;
    var (st', r) := Call(st, s1, d);
    CallKeeps(st, s1, d);
    FirstToken(st.text, p, d);
    if r.Some? {
      LaterCallsLeave(st', None, d);
      CStringKept(st'.text, Last(st', None, d).text, r.value);
    }
  }

  /** Repeated calls return exactly the tokens of the string, in order, and then NULL for good. */
  lemma {:induction false} RepeatedCalls(st: State, s1: Option<nat>, d: seq<byte>)
    requires Callable(st, s1) && Start(st, s1).Some?
    ensures Collect(st, s1, d) == Tokens(CString(st.text, Start(st, s1).value), d, 0)
    ensures var end := Last(st, s1, d); Callable(end, None) && Call(end, None, d) == (end, None)
    decreases Remaining(st, s1)
  {
    hide CString, Scan, Skip, RunEnd;
    var s := CString(st.text, Start(st, s1).value);
    FirstToken(st.text, Start(st, s1).value, d);
    CallKeeps(st, s1, d);
    LaterCallsLeave(st, s1, d);
    var a := Skip(s, d, 0);
    var b := RunEnd(s, d, a);
    if a < |s| && b < |s| {
      RepeatedCalls(Call(st, s1, d).0, None, d);
      TokensShift(s, s[b + 1..], d, b + 1, b + 1);
    }
  }

  /** At the end every returned pointer still spells its token. */
  lemma {:induction false} TokensStay(st: State, s1: Option<nat>, d: seq<byte>)
    requires Callable(st, s1)
    ensures |Pointers(st, s1, d)| == |Collect(st, s1, d)|
    ensures forall k :: 0 <= k < |Pointers(st, s1, d)| ==>
              && Pointers(st, s1, d)[k] <= |Last(st, s1, d).text|
              && CString(Last(st, s1, d).text, Pointers(st, s1, d)[k]) == Collect(st, s1, d)[k]
    decreases Remaining(st, s1)
  {
    hide CString, Scan;
    CallKeeps(st, s1, d);
    LaterCallsLeave(st, s1, d);
    var (st', r) := Call(st, s1, d);
    if r.Some? {
      FirstTokenStays(st, s1, d);
      TokensStay(st', None, d);
    }
  }

  // ---------------------------------------------------------------- what the tokens are

  /** `s[a..b]` is a longest piece without delimiters. */
  ghost predicate IsRun(s: seq<byte>, d: seq<byte>, a: nat, b: nat) {
    && a < b <= |s|
    && (forall k :: a <= k < b ==> s[k] !in d)
    && (a == 0 || s[a - 1] in d)
    && (b == |s| || s[b] in d)
  }

  /** Where the tokens lie. */
  function Runs(s: seq<byte>, d: seq<byte>, i: nat): seq<(nat, nat)>
    requires i <= |s|
    decreases |s| - i
  {
    var a := Skip(s, d, i);
    var b := RunEnd(s, d, a);
    if a == |s| then []
    else [(a, b)] + if b == |s| then [] else Runs(s, d, b + 1)
  }

  lemma {:induction false} TokensOnRuns(s: seq<byte>, d: seq<byte>, i: nat)
    requires i <= |s|
    ensures |Tokens(s, d, i)| == |Runs(s, d, i)|
    ensures forall k :: 0 <= k < |Runs(s, d, i)| ==>
              var (a, b) := Runs(s, d, i)[k]; a <= b <= |s| && Tokens(s, d, i)[k] == s[a..b]
    decreases |s| - i
  {
    hide Skip, RunEnd;
    var a := Skip(s, d, i);
    var b := RunEnd(s, d, a);
    TokensFrom(s, d, i, a, b);
    RunsFrom(s, d, i, a, b);
    if a < |s| && b < |s| {
      hide Tokens, Runs;
      TokensOnRuns(s, d, b + 1);
    }
  }

  lemma RunsFrom(s: seq<byte>, d: seq<byte>, i: nat, a: nat, b: nat)
    requires i <= |s| && a == Skip(s, d, i) && b == RunEnd(s, d, a)
    ensures a == |s| ==> Runs(s, d, i) == []
    ensures a < |s| == b ==> Runs(s, d, i) == [(a, b)]
    ensures a < |s| && b < |s| ==> Runs(s, d, i) == [(a, b)] + Runs(s, d, b + 1)
  {
  }

  lemma FirstRun(s: seq<byte>, d: seq<byte>, i: nat, a': nat, b': nat, a: nat, b: nat)
    requires i <= a' <= b' <= |s| && (i == 0 || s[i - 1] in d)
    requires (forall k :: i <= k < a' ==> s[k] in d) && (a' < |s| ==> s[a'] !in d)
    requires (forall k :: a' <= k < b' ==> s[k] !in d) && (b' < |s| ==> s[b'] in d)
    requires IsRun(s, d, a, b) && i <= a
    ensures a' <= a && (a == a' ==> b == b') && (a != a' ==> b' < a)
  {
    assert s[a] !in d;
    assert a == 0 || s[a - 1] in d;
  }

  /** The runs found from `i` on are all the longest delimiter-free pieces from there on. */
  lemma {:induction false} RunsAreMaximal(s: seq<byte>, d: seq<byte>, i: nat, a: nat, b: nat)
    requires i <= |s| && (i == 0 || s[i - 1] in d)
    ensures (a, b) in Runs(s, d, i) <==> IsRun(s, d, a, b) && i <= a
    decreases |s| - i
  {
    hide Skip, RunEnd, Runs;
    var a', b' := Skip(s, d, i), RunEnd(s, d, Skip(s, d, i));
    SkipIs(s, d, i, a');
    RunEndIs(s, d, a', b');
    RunsFrom(s, d, i, a', b');
    if a' < |s| && b' < |s| {
      RunsAreMaximal(s, d, b' + 1, a, b);
    }
    if IsRun(s, d, a, b) && i <= a {
      FirstRun(s, d, i, a', b', a, b);
    } else {
      assert a' < |s| ==> IsRun(s, d, a', b');
    }
  }

  /** They come in order, with at least one delimiter in between. */
  lemma {:induction false} RunsInOrder(s: seq<byte>, d: seq<byte>, i: nat, j: nat, k: nat)
    requires i <= |s| && j < k < |Runs(s, d, i)|
    ensures i <= Runs(s, d, i)[j].0 <= Runs(s, d, i)[j].1 < Runs(s, d, i)[k].0
    decreases |s| - i
  {
    hide Skip, RunEnd, Runs;
    var a := Skip(s, d, i);
    var b := RunEnd(s, d, a);
    RunsFrom(s, d, i, a, b);
    var rest := Runs(s, d, b + 1);
    if j > 0 {
      RunsInOrder(s, d, b + 1, j - 1, k - 1);
    } else if k > 1 {
      RunsInOrder(s, d, b + 1, 0, k - 1);
    } else {
      FirstFrom(s, d, b + 1);
    }
  }

  lemma FirstFrom(s: seq<byte>, d: seq<byte>, i: nat)
    requires i <= |s| && Runs(s, d, i) != []
    ensures i <= Runs(s, d, i)[0].0
  {
  }
}
