/** The handful of Go `strings` operations the program relies on, over
    `string` (a `seq<char>`), each with a contract saying what it computes. */
module Strings {

  /** `strings.HasPrefix(s, prefix)`. */
  predicate HasPrefix(s: string, prefix: string) {
    |prefix| <= |s| && s[..|prefix|] == prefix
  }

  /** In `a + [c] + b` with `c` absent from `a`, the first `c` is the one
      right after `a`. */
  lemma FirstIndexAfter(a: string, c: char, b: string)
    requires c !in a
    ensures IndexOf(a + [c] + b, c) == |a|
  {
    assert (a + [c] + b)[|a|] == c;
  }

  /** In `a + [c] + b` with `c` absent from `b`, the last `c` is the one
      right after `a`. */
  lemma LastIndexAfter(a: string, c: char, b: string)
    requires c !in b
    ensures LastIndexOf(a + [c] + b, c) == |a|
  {
    var s := a + [c] + b;
    assert s[|a|] == c;
    var k := LastIndexOf(s, c);
    if k > |a| {
      assert false;
    }
  }

  /** A `c` at `k` with none before it is the first `c`. */
  lemma IndexOfAt(s: string, c: char, k: nat)
    requires k < |s| && s[k] == c
    requires forall i :: 0 <= i < k ==> s[i] != c
    ensures IndexOf(s, c) == k
  {
  }

  /** A `c` at `k` with none after it is the last `c`. */
  lemma LastIndexOfAt(s: string, c: char, k: nat)
    requires k < |s| && s[k] == c
    requires forall i :: k < i < |s| ==> s[i] != c
    ensures LastIndexOf(s, c) == k
  {
  }

  lemma ConcatAssoc(a: string, b: string, c: string)
    ensures a + b + c == a + (b + c)
  {
  }

  lemma PrefixSplit(s: string, prefix: string)
    requires HasPrefix(s, prefix)
    ensures s == prefix + s[|prefix|..]
  {
  }

  /** `strings.TrimPrefix(s, prefix)`: removes one copy of `prefix`, if present. */
  function TrimPrefix(s: string, prefix: string): (r: string)
    ensures HasPrefix(s, prefix) ==> prefix + r == s
    ensures !HasPrefix(s, prefix) ==> r == s
  {
    if HasPrefix(s, prefix) then s[|prefix|..] else s
  }

  /** Position of the first `c` in `s`, or `|s|` when there is none
      (`strings.IndexByte`, with "not found" as `|s|` instead of -1). */
  function IndexOf(s: string, c: char): (k: nat)
    ensures k <= |s|
    ensures k < |s| ==> s[k] == c
    ensures forall i :: 0 <= i < k ==> s[i] != c
    ensures k == |s| <==> c !in s
    decreases |s|
  {
    if |s| == 0 then 0
    else if s[0] == c then 0
    else 1 + IndexOf(s[1..], c)
  }

  /** Position of the last `c` in `s`, or `|s|` when there is none
      (`strings.LastIndexByte`, with "not found" as `|s|` instead of -1). */
  function LastIndexOf(s: string, c: char): (k: nat)
    ensures k <= |s|
    ensures k < |s| ==> s[k] == c && forall i :: k < i < |s| ==> s[i] != c
    ensures k == |s| <==> c !in s
    decreases |s|
  {
    if |s| == 0 then 0
    else if s[|s| - 1] == c then |s| - 1
    else
      var k := LastIndexOf(s[..|s| - 1], c);
      if k == |s| - 1 then |s| else k
  }

  /** The text before the first `c` (all of `s` when there is none): the
      first half of `strings.Cut(s, string(c))`. */
  function Before(s: string, c: char): (r: string)
    ensures c !in r
    ensures HasPrefix(s, r)
    ensures c in s ==> |r| < |s| && s[|r|] == c
    ensures c !in s ==> r == s
  {
    s[..IndexOf(s, c)]
  }

  /** Number of leading `c` in `s`. */
  function LeadingCount(s: string, c: char): (k: nat)
    ensures k <= |s|
    ensures forall i :: 0 <= i < k ==> s[i] == c
    ensures k < |s| ==> s[k] != c
    decreases |s|
  {
    if |s| > 0 && s[0] == c then 1 + LeadingCount(s[1..], c) else 0
  }

  /** Number of trailing `c` in `s`. */
  function TrailingCount(s: string, c: char): (k: nat)
    ensures k <= |s|
    ensures forall i :: |s| - k <= i < |s| ==> s[i] == c
    ensures k < |s| ==> s[|s| - k - 1] != c
    decreases |s|
  {
    if |s| > 0 && s[|s| - 1] == c then 1 + TrailingCount(s[..|s| - 1], c) else 0
  }

  /** `strings.Trim(s, string(c))`: strips every leading and trailing `c`.
      The result is the slice of `s` that follows the leading run of `c`
      and is followed only by `c`, and it neither starts nor ends with `c`. */
  function Trim(s: string, c: char): (r: string)
    ensures |r| <= |s|
    ensures r == [] || (r[0] != c && r[|r| - 1] != c)
    ensures var i := LeadingCount(s, c);
              i + |r| <= |s| && s[i..i + |r|] == r
              && forall j :: i + |r| <= j < |s| ==> s[j] == c
  {
    var lead := LeadingCount(s, c);
    var rest := s[lead..];
    var r := rest[..|rest| - TrailingCount(rest, c)];
    assert s[lead..lead + |r|] == r;
    r
  }

  /** Trimming a single leading `c` off text that neither starts nor ends
      with `c` leaves that text. */
  lemma TrimOneLeading(s: string, c: char)
    requires |s| > 0 && s[0] != c && s[|s| - 1] != c
    ensures Trim([c] + s, c) == s
  {
    assert ([c] + s)[1..] == s;
    assert LeadingCount([c] + s, c) == 1 + LeadingCount(s, c);
  }

  /** An ASCII digit: `\d` in Go's regexp syntax, and what net/url accepts
      in a port. */
  predicate IsDigit(c: char) {
    '0' <= c <= '9'
  }

  /** Trimming a leading `c` off `c`-free text leaves no `c` behind. */
  lemma TrimLeadingAbsent(s: string, c: char)
    requires c !in s
    ensures c !in Trim([c] + s, c)
  {
    var t := [c] + s;
    var r := Trim(t, c);
    var i := LeadingCount(t, c);
    assert i >= 1 by { assert t[0] == c; }
    forall j | 0 <= j < |r|
      ensures r[j] != c
    {
      assert r[j] == t[i + j] == s[i + j - 1];
    }
  }

  /** `strings.Split(s, string(sep))`: the maximal `sep`-free pieces of `s`,
      in order; there is always one more piece than there are separators,
      so the empty string splits into one empty piece. */
  function Split(s: string, sep: char): (parts: seq<string>)
    ensures |parts| >= 1
    ensures |parts| == 1 <==> sep !in s
    ensures forall i :: 0 <= i < |parts| ==> sep !in parts[i]
    ensures Join(parts, [sep]) == s
    ensures |parts| == Count(s, sep) + 1
    decreases |s|
  {
    var k := IndexOf(s, sep);
    if k == |s| then
      CountAbsent(s, sep);
      [s]
    else
      var tail := Split(s[k + 1..], sep);
      SplitStep(s, sep, k, tail);
      [s[..k]] + tail
  }

  /** One step of `Split`: the piece before the first separator, put in
      front of the pieces of what follows it, keeps every property. */
  lemma SplitStep(s: string, sep: char, k: nat, tail: seq<string>)
    requires k < |s| && s[k] == sep
    requires forall i :: 0 <= i < k ==> s[i] != sep
    requires |tail| >= 1
    requires forall i :: 0 <= i < |tail| ==> sep !in tail[i]
    requires Join(tail, [sep]) == s[k + 1..]
    requires |tail| == Count(s[k + 1..], sep) + 1
    ensures var parts := [s[..k]] + tail;
            && |parts| >= 2 && sep in s
            && (forall i :: 0 <= i < |parts| ==> sep !in parts[i])
            && Join(parts, [sep]) == s
            && |parts| == Count(s, sep) + 1
  {
    var head, rest := s[..k], s[k + 1..];
    var parts := [head] + tail;
    assert s == head + [sep] + rest;
    assert sep !in head;
    CountSplit(head, sep, rest);
    JoinCons(head, tail, [sep]);
    forall i | 0 <= i < |parts|
      ensures sep !in parts[i]
    {
      if i > 0 { assert parts[i] == tail[i - 1]; }
    }
  }

  /** Number of occurrences of `c` in `s`. */
  function Count(s: string, c: char): nat
    decreases |s|
  {
    if |s| == 0 then 0 else (if s[0] == c then 1 else 0) + Count(s[1..], c)
  }

  lemma {:induction false} CountAbsent(s: string, c: char)
    requires c !in s
    ensures Count(s, c) == 0
    decreases |s|
  {
    if |s| > 0 {
      assert c !in s[1..];
      CountAbsent(s[1..], c);
    }
  }

  /** A separator between a `c`-free prefix and a tail adds exactly one. */
  lemma {:induction false} CountSplit(a: string, c: char, b: string)
    requires c !in a
    ensures Count(a + [c] + b, c) == 1 + Count(b, c)
    decreases |a|
  {
    if |a| == 0 {
      assert a + [c] + b == [c] + b;
      assert ([c] + b)[1..] == b;
    } else {
      assert (a + [c] + b)[1..] == a[1..] + [c] + b;
      assert c !in a[1..];
      CountSplit(a[1..], c, b);
    }
  }

  /** `strings.Join(parts, sep)`. */
  function Join(parts: seq<string>, sep: string): string
    decreases |parts|
  {
    if |parts| == 0 then []
    else if |parts| == 1 then parts[0]
    else parts[0] + sep + Join(parts[1..], sep)
  }

  lemma JoinCons(head: string, tail: seq<string>, sep: string)
    requires |tail| >= 1
    ensures Join([head] + tail, sep) == head + sep + Join(tail, sep)
  {
    assert ([head] + tail)[1..] == tail;
  }

  /** `strings.SplitN(s, string(sep), 2)`: at most two pieces, split at the
      first `sep`; the second piece keeps any later separators. */
  function SplitN2(s: string, sep: char): (parts: seq<string>)
    ensures 1 <= |parts| <= 2
    ensures |parts| == 2 <==> sep in s
    ensures sep !in parts[0]
    ensures |parts| == 1 ==> parts[0] == s
    ensures |parts| == 2 ==> parts[0] + [sep] + parts[1] == s
  {
    var k := IndexOf(s, sep);
    if k == |s| then [s]
    else
      assert s == s[..k] + [sep] + s[k + 1..];
      [s[..k], s[k + 1..]]
  }
}
