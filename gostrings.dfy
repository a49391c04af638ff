/**
 * Go strings are immutable sequences of bytes. This module models the parts of
 * Go's `strings` package that the resolver and the request handler use:
 * `strings.Index` (for one byte), `strings.Split(s, " ")` and
 * `strings.Join(p, " ")`.
 */
module GoStrings {

  newtype byte = b: int | 0 <= b < 0x100

  /** The separator the handler splits on and the resolver joins with. */
  const Space: byte := ' ' as byte

  /** ASCII text as the bytes Go stores for it. */
  function Bytes(s: string): (r: seq<byte>)
    requires forall i | 0 <= i < |s| :: s[i] as int < 0x80
    ensures |r| == |s|
    ensures forall i | 0 <= i < |s| :: r[i] as int == s[i] as int
  {
    seq(|s|, i requires 0 <= i < |s| => s[i] as int as byte)
  }

  /** ASCII text converts piece by piece. */
  lemma BytesConcat(a: string, b: string)
    requires forall i | 0 <= i < |a| :: a[i] as int < 0x80
    requires forall i | 0 <= i < |b| :: b[i] as int < 0x80
    ensures Bytes(a + b) == Bytes(a) + Bytes(b)
  {
  }

  /** A character the text lacks is a byte its conversion lacks. */
  lemma BytesLack(s: string, c: char)
    requires forall i | 0 <= i < |s| :: s[i] as int < 0x80
    requires c !in s && c as int < 0x80
    ensures c as int as byte !in Bytes(s)
  {
  }

  /** Index of the first `c` in `s`, or -1 when there is none (Go's `strings.IndexByte`). */
  function IndexOf(s: seq<byte>, c: byte): (i: int)
    ensures -1 <= i < |s|
    ensures i == -1 <==> c !in s
    ensures 0 <= i ==> s[i] == c && c !in s[..i]
  {
    if s == [] then -1
    else if s[0] == c then 0
    else
      var j := IndexOf(s[1..], c);
      assert s[1..][..if j < 0 then 0 else j] == s[1..if j < 0 then 1 else j + 1];
      if j < 0 then -1 else j + 1
  }

  /** Number of separators in `s` (Go's `strings.Count(s, " ")`). */
  function CountSpaces(s: seq<byte>): (n: nat)
    ensures n <= |s|
    ensures n == 0 <==> Space !in s
  {
    if s == [] then 0 else (if s[0] == Space then 1 else 0) + CountSpaces(s[1..])
  }

  /**
   * `strings.Split(s, " ")`: the pieces of `s` between separators, found left
   * to right with `Index`, as Go's `genSplit` does.
   */
  function Split(s: seq<byte>): (r: seq<seq<byte>>)
    ensures |r| == CountSpaces(s) + 1
    ensures forall i | 0 <= i < |r| :: Space !in r[i]
    decreases |s|
  {
    var m := IndexOf(s, Space);
    if m < 0 then [s]
    else
      var rest := Split(s[m + 1..]);
      CountAround(s, m);
      assert forall i | 1 <= i < |rest| + 1 :: ([s[..m]] + rest)[i] == rest[i - 1];
      [s[..m]] + rest
  }

  /** `strings.Join(p, " ")`: the elements of `p` with one separator between neighbours. */
  function Join(p: seq<seq<byte>>): (r: seq<byte>)
    ensures |p| >= 1 ==> |p[0]| <= |r| && r[..|p[0]|] == p[0]
    ensures |p| >= 1 && (forall i | 0 <= i < |p| :: Space !in p[i]) ==> CountSpaces(r) == |p| - 1
  {
    if |p| == 0 then []
    else if |p| == 1 then p[0]
    else
      var rest := Join(p[1..]);
      var r := p[0] + [Space] + rest;
      assert r[..|p[0]|] == p[0];
      assert forall i | 0 <= i < |p| - 1 :: p[1..][i] == p[i + 1];
      CountAfter(p[0], rest);
      r
  }

  /** A separator after space-free text is the first one: it adds one to the count of what follows. */
  lemma CountAfter(a: seq<byte>, b: seq<byte>)
    ensures Space !in a ==> CountSpaces(a + [Space] + b) == 1 + CountSpaces(b)
  {
    if Space !in a {
      var s := a + [Space] + b;
      assert s[..|a|] == a && s[|a| + 1..] == b;
      CountAround(s, |a|);
    }
  }

  /** The separators of `s` are those before its first one, that one, and those after. */
  lemma {:induction false} CountAround(s: seq<byte>, m: nat)
    requires m < |s| && s[m] == Space && Space !in s[..m]
    ensures CountSpaces(s) == 1 + CountSpaces(s[m + 1..])
  {
    if m > 0 {
      assert s[0] in s[..m];
      assert s[1..][..m - 1] == s[1..m];
      assert s[1..][m - 1 + 1..] == s[m + 1..];
      CountAround(s[1..], m - 1);
    }
  }

  /** The first `c` of `a + [c] + b` is the one after `a` when `a` has none. */
  lemma {:induction false} IndexAfter(a: seq<byte>, c: byte, b: seq<byte>)
    requires c !in a
    ensures IndexOf(a + [c] + b, c) == |a|
  {
    if a != [] {
      assert (a + [c] + b)[1..] == a[1..] + [c] + b;
      IndexAfter(a[1..], c, b);
    }
  }

  /** Joining `x` in front of a non-empty list puts one separator after `x`. */
  lemma JoinCons(x: seq<byte>, p: seq<seq<byte>>)
    requires |p| >= 1
    ensures Join([x] + p) == x + [Space] + Join(p)
  {
    assert ([x] + p)[1..] == p;
  }

  /** Joining what `Split` cut gives the input back: splitting loses nothing. */
  lemma {:induction false} JoinSplit(s: seq<byte>)
    ensures Join(Split(s)) == s
    decreases |s|
  {
    var m := IndexOf(s, Space);
    if m >= 0 {
      JoinSplit(s[m + 1..]);
      JoinCons(s[..m], Split(s[m + 1..]));
      assert s == s[..m] + [Space] + s[m + 1..];
    }
  }

  /** Splitting at a first separator yields the text before it, then the split of the rest. */
  lemma SplitAtFirst(a: seq<byte>, b: seq<byte>)
    requires Space !in a
    ensures Split(a + [Space] + b) == [a] + Split(b)
  {
    var s := a + [Space] + b;
    IndexAfter(a, Space, b);
    assert s[..|a|] == a;
    assert s[|a| + 1..] == b;
  }

  /**
   * Splitting a join gives the pieces back, as long as there is at least one
   * piece and no piece holds a separator.
   */
  lemma {:induction false} SplitJoin(p: seq<seq<byte>>)
    requires |p| >= 1
    requires forall i | 0 <= i < |p| :: Space !in p[i]
    ensures Split(Join(p)) == p
    decreases |p|
  {
    if |p| > 1 {
      SplitAtFirst(p[0], Join(p[1..]));
      SplitJoin(p[1..]);
      assert p == [p[0]] + p[1..];
    }
  }
}
