/** Strings shared by the parsers and printers: joining, bracket structure, decimal numbers. */
module Text {
  import opened Wrappers

  // ---------------------------------------------------------------- joining

  /** The pieces separated by single commas, as `join(',')`. */
  function Join(parts: seq<string>): string {
    if |parts| == 0 then ""
    else if |parts| == 1 then parts[0]
    else parts[0] + "," + Join(parts[1..])
  }

  lemma JoinCons(head: string, tail: seq<string>)
    requires tail != []
    ensures Join([head] + tail) == head + "," + Join(tail)
  {
    assert ([head] + tail)[1..] == tail;
  }

  // ------------------------------------------------------- bracket structure

  function Delta(c: char): int {
    if c == '(' then 1 else if c == ')' then -1 else 0
  }

  /** Parenthesis depth after reading `s` from depth `d`; -1 once the depth has gone negative. */
  function DepthAfter(s: string, d: int): int
    decreases |s|
  {
    if d < 0 then -1
    else if s == "" then d
    else DepthAfter(s[1..], d + Delta(s[0]))
  }

  predicate Balanced(s: string) {
    DepthAfter(s, 0) == 0
  }

  /**
   * Read from depth `d`, `s` comes back to depth zero without going below it and has no comma
   * at depth zero.
   */
  predicate Closed(s: string, d: nat)
    decreases |s|
  {
    if s == "" then d == 0
    else
      && (s[0] == ')' || s[0] == ',' ==> d > 0)
      && Closed(s[1..], d + Delta(s[0]))
  }

  /** A balanced piece of text without a top-level comma. */
  predicate IsToken(s: string) {
    Closed(s, 0)
  }

  lemma {:induction false} ClosedConcat(a: string, d: nat, b: string, k: nat)
    requires Closed(a, d) && Closed(b, k)
    ensures Closed(a + b, d + k)
    decreases |a|
  {
    if a == "" {
      assert a + b == b;
    } else {
      ClosedConcat(a[1..], d + Delta(a[0]), b, k);
      assert (a + b)[1..] == a[1..] + b;
    }
  }

  /** No character of `s` opens, closes or separates. */
  predicate Plain(s: string) {
    forall i :: 0 <= i < |s| ==> s[i] != '(' && s[i] != ')' && s[i] != ','
  }

  lemma {:induction false} PlainIsToken(s: string)
    requires Plain(s)
    ensures IsToken(s)
    decreases |s|
  {
    if s != "" {
      PlainIsToken(s[1..]);
    }
  }

  lemma {:induction false} JoinClosed(parts: seq<string>, d: nat, rest: string)
    requires forall i :: 0 <= i < |parts| ==> IsToken(parts[i])
    requires Closed(rest, d) && d > 0
    ensures Closed(Join(parts) + rest, d)
    decreases |parts|
  {
    if |parts| == 0 {
      assert Join(parts) + rest == rest;
    } else if |parts| == 1 {
      ClosedConcat(parts[0], 0, rest, d);
    } else {
      JoinClosed(parts[1..], d, rest);
      var tail := "," + (Join(parts[1..]) + rest);
      assert tail[1..] == Join(parts[1..]) + rest;
      ClosedConcat(parts[0], 0, tail, d);
      assert Join(parts) + rest == parts[0] + tail;
    }
  }

  /** A parenthesised list of tokens is itself a token. */
  lemma ParenthesisedIsToken(parts: seq<string>)
    requires forall i :: 0 <= i < |parts| ==> IsToken(parts[i])
    ensures IsToken("(" + Join(parts) + ")")
  {
    var inner := Join(parts) + ")";
    assert Closed(inner, 1) by {
      assert Closed([')'], 1);
      JoinClosed(parts, 1, [')']);
    }
    var all := ['('] + inner;
    assert all[0] == '(' && all[1..] == inner;
    assert Closed(all, 0);
    assert all == "(" + Join(parts) + ")";
  }

  // --------------------------------------------------------- decimal numbers

  predicate IsDigit(c: char) {
    '0' <= c <= '9'
  }

  predicate AllDigits(s: string) {
    forall i :: 0 <= i < |s| ==> IsDigit(s[i])
  }

  /** The number written by the digits of `s`. */
  function ValueOf(s: string): nat
    requires AllDigits(s)
  {
    if s == "" then 0 else 10 * ValueOf(s[..|s| - 1]) + (s[|s| - 1] as int - '0' as int)
  }

  /** The decimal representation without leading zeros. */
  function Decimal(n: nat): (s: string)
    ensures s != "" && AllDigits(s) && ValueOf(s) == n
  {
    var last := [('0' as int + n % 10) as char];
    if n < 10 then assert last[..0] == ""; last
    else
      var front := Decimal(n / 10);
      assert (front + last)[..|front + last| - 1] == front;
      front + last
  }
}
