/** Small vocabulary shared by every module: optional values, SQL-like row queries and sums. */
module Basics {

  datatype Option<+T> = None | Some(value: T)

  /** The positions of the rows a query selects, in table order: `SELECT ... WHERE p`. */
  function Rows<T>(table: seq<T>, p: T -> bool): (r: seq<nat>)
    ensures forall k :: 0 <= k < |r| ==> r[k] < |table| && p(table[r[k]])
    ensures forall i :: 0 <= i < |table| && p(table[i]) ==> i in r
    ensures forall j, k :: 0 <= j < k < |r| ==> r[j] < r[k]
  {
    if |table| == 0 then [] else
      var n := |table| - 1;
      var front := Rows(table[..n], p);
      assert forall i :: 0 <= i < n ==> table[..n][i] == table[i];
      if p(table[n]) then front + [n] else front
  }

  /** Queries that agree row by row select the same positions. */
  lemma {:induction false} SameRows<T>(a: seq<T>, b: seq<T>, p: T -> bool, q: T -> bool)
    requires |a| == |b| && forall i :: 0 <= i < |a| ==> p(a[i]) == q(b[i])
    ensures Rows(a, p) == Rows(b, q)
  {
    if |a| > 0 { SameRows(a[..|a| - 1], b[..|b| - 1], p, q); }
  }

  /** Row `i` satisfies the condition and no other row does. */
  predicate Sole<T>(table: seq<T>, p: T -> bool, i: nat) {
    i < |table| && p(table[i]) && forall j :: 0 <= j < |table| && p(table[j]) ==> j == i
  }

  lemma SoleRow<T>(table: seq<T>, p: T -> bool, i: nat)
    ensures Rows(table, p) == [i] <==> Sole(table, p, i)
  {
    var rows := Rows(table, p);
    if Sole(table, p, i) {
      assert i in rows;
      assert rows[0] == i == rows[|rows| - 1];
    }
    assert forall j :: 0 <= j < |table| && p(table[j]) ==> j in rows;
  }

  /** The first `limit` elements of a result list: `LIMIT n`. */
  function Limit<T>(s: seq<T>, limit: nat): (r: seq<T>)
    ensures r <= s
    ensures |r| == if limit < |s| then limit else |s|
  {
    if limit < |s| then s[..limit] else s
  }

  function Total(s: seq<int>): int {
    if |s| == 0 then 0 else Total(s[..|s| - 1]) + s[|s| - 1]
  }

  lemma {:induction false} TotalUpdate(s: seq<int>, i: nat, v: int)
    requires i < |s|
    ensures Total(s[i := v]) == Total(s) - s[i] + v
  {
    var n := |s| - 1;
    if i < n {
      TotalUpdate(s[..n], i, v);
      assert s[i := v][..n] == s[..n][i := v];
    } else {
      assert s[i := v][..n] == s[..n];
    }
  }

  lemma TotalAppend(s: seq<int>, v: int)
    ensures Total(s + [v]) == Total(s) + v
  {}

  lemma {:induction false} TotalAtLeast(s: seq<int>, i: nat)
    requires i < |s|
    requires forall k :: 0 <= k < |s| ==> 0 <= s[k]
    ensures s[i] <= Total(s)
    ensures 0 <= Total(s) - s[i]
  {
    TotalUpdate(s, i, 0);
    TotalNonNegative(s[i := 0]);
  }

  lemma {:induction false} TotalNonNegative(s: seq<int>)
    requires forall k :: 0 <= k < |s| ==> 0 <= s[k]
    ensures 0 <= Total(s)
  {
    if |s| > 0 { TotalNonNegative(s[..|s| - 1]); }
  }

  lemma {:induction false} TotalZero(s: seq<int>)
    requires forall k :: 0 <= k < |s| ==> s[k] == 0
    ensures Total(s) == 0
  {
    if |s| > 0 { TotalZero(s[..|s| - 1]); }
  }

  // Python's str.upper and str.lower, and SQL's UPPER, on the ASCII letters.
  function UpperChar(c: char): char {
    if 'a' <= c <= 'z' then c - 'a' + 'A' else c
  }

  function LowerChar(c: char): char {
    if 'A' <= c <= 'Z' then c - 'A' + 'a' else c
  }

  function Upper(s: string): (r: string)
    ensures |r| == |s|
  {
    seq(|s|, i requires 0 <= i < |s| => UpperChar(s[i]))
  }

  function Lower(s: string): (r: string)
    ensures |r| == |s|
  {
    seq(|s|, i requires 0 <= i < |s| => LowerChar(s[i]))
  }

  /** Folding shifts the letters by 32 and leaves every other character; both foldings agree. */
  lemma FoldingSpelled(s: string)
    ensures forall i :: 0 <= i < |s| ==>
              && ('a' <= s[i] <= 'z' ==> Upper(s)[i] as int == s[i] as int - 32 && Lower(s)[i] == s[i])
              && ('A' <= s[i] <= 'Z' ==> Lower(s)[i] as int == s[i] as int + 32 && Upper(s)[i] == s[i])
              && (!('a' <= s[i] <= 'z') && !('A' <= s[i] <= 'Z') ==> Upper(s)[i] == Lower(s)[i] == s[i])
    ensures Upper(Lower(s)) == Upper(s) && Lower(Upper(s)) == Lower(s)
    ensures Upper("usdt_Trx9") == "USDT_TRX9" && Lower("0xAbC") == "0xabc"
  {}

  /** Python's `part in s`. */
  predicate Contains(s: string, part: string) {
    part <= s || (s != [] && Contains(s[1..], part))
  }

  /** `part` stands in `s` at position `i`. */
  ghost predicate StandsAt(s: string, part: string, i: nat) {
    i + |part| <= |s| && s[i..i + |part|] == part
  }

  lemma StandsNext(s: string, part: string)
    requires s != []
    ensures (exists i: nat :: StandsAt(s, part, i)) <==> part <= s || exists i: nat :: StandsAt(s[1..], part, i)
  {
    if part <= s { assert StandsAt(s, part, 0); }
    if i: nat :| StandsAt(s[1..], part, i) {
      assert s[1..][i..i + |part|] == s[i + 1..i + 1 + |part|];
      assert StandsAt(s, part, i + 1);
    }
    if i: nat :| StandsAt(s, part, i) && i > 0 {
      assert s[1..][i - 1..i - 1 + |part|] == s[i..i + |part|];
      assert StandsAt(s[1..], part, i - 1);
    }
  }

  /** One string contains another if and only if the other is one of its slices. */
  lemma {:induction false} ContainsIff(s: string, part: string)
    ensures Contains(s, part) <==> exists i: nat :: StandsAt(s, part, i)
  {
    if s == [] {
      if part == [] { assert StandsAt(s, part, 0); }
    } else {
      StandsNext(s, part);
      ContainsIff(s[1..], part);
    }
  }

  lemma TooShortToContain(s: string, part: string)
    requires |s| < |part|
    ensures !Contains(s, part)
  {}

  /** A joined string splits back uniquely at its first separator. */
  lemma SplitAt(separator: char, a: string, rest: string, a': string, rest': string)
    requires separator !in a && separator !in a'
    requires a + [separator] + rest == a' + [separator] + rest'
    ensures a == a' && rest == rest'
  {
    var s := a + [separator] + rest;
    assert s[|a|] == separator && s[|a'|] == separator;
    assert forall i :: 0 <= i < |a| ==> s[i] == a[i] && a[i] in a;
    assert forall i :: 0 <= i < |a'| ==> s[i] == a'[i] && a'[i] in a';
    assert |a| == |a'|;
    assert s[..|a|] == a && s[..|a'|] == a';
    assert s[|a| + 1..] == rest && s[|a'| + 1..] == rest';
  }
}
