/**
 * The redirect resolver: a read-only tree of nodes, walked one token per
 * level. A node answers with its url when the tokens run out, hands the rest
 * of the tokens to the child named by the next token when there is one, and
 * otherwise formats all remaining tokens into its template.
 */
module Resolver {
  import opened Wrappers
  import opened GoStrings
  import opened UrlEscape
  import opened Format

  /**
   * A tree vertex. An empty `url` or `template` means the node has none; a
   * missing `children` entry in the configuration is the empty map.
   */
  datatype Node = Node(url: seq<byte>, children: map<seq<byte>, Node>, template: seq<byte>)

  /** `ErrNotFound`, and any other error a future resolver might return. */
  datatype Error = NotFound | Other(text: seq<byte>)

  /** `err.Error()`: `ErrNotFound` is `fmt.Errorf("not found")`. */
  function ErrorText(e: Error): (t: seq<byte>)
    ensures e.NotFound? ==> t == Bytes("not found")
    ensures e.Other? ==> t == e.text
  {
    match e
    case NotFound => Bytes("not found")
    case Other(text) => text
  }

  /** Every template in the tree is empty (absent) or text around one `%s`. */
  ghost predicate WellFormed(n: Node)
    decreases n
  {
    && (n.template == [] || OneVerb(n.template))
    && forall k | k in n.children :: WellFormed(n.children[k])
  }

  /**
   * `node.resolve(p)`. The only error it can produce is `NotFound`; every
   * call drops one token, so it terminates after at most `|p|` descents.
   */
  function Resolve(n: Node, p: seq<seq<byte>>): (r: Result<seq<byte>, Error>)
    requires WellFormed(n)
    ensures r.Failure? ==> r.error == NotFound
    decreases |p|
  {
    if |p| == 0 && |n.url| == 0 then Failure(NotFound)
    else if |p| == 0 then Success(n.url)
    else if p[0] in n.children then Resolve(n.children[p[0]], p[1..])
    else if n.template == [] then Failure(NotFound)
    else Success(Sprintf(n.template, PathEscape(Join(p))))
  }

  /** The node reached from `n` along the child keys `keys`, if they spell a path. */
  function Follow(n: Node, keys: seq<seq<byte>>): (r: Option<Node>)
    ensures r.Some? && WellFormed(n) ==> WellFormed(r.value)
    decreases |keys|
  {
    if keys == [] then Some(n)
    else if keys[0] in n.children then Follow(n.children[keys[0]], keys[1..])
    else None
  }

  /**
   * How many leading tokens spell a path from `n`: the path they spell
   * exists, and the next token, if any, names no child of where it ends.
   */
  function Matched(n: Node, p: seq<seq<byte>>): (k: nat)
    ensures k <= |p|
    ensures Follow(n, p[..k]).Some?
    ensures k < |p| ==> p[k] !in Follow(n, p[..k]).value.children
    decreases |p|
  {
    if p == [] || p[0] !in n.children then 0
    else
      var k := Matched(n.children[p[0]], p[1..]);
      assert p[..k + 1][1..] == p[1..][..k];
      k + 1
  }

  /**
   * Resolution stated without recursion: go down along the longest run of
   * tokens that names children; if that uses every token, answer with the url
   * found there, otherwise fill that node's template with every token left.
   */
  function Lookup(n: Node, p: seq<seq<byte>>): Result<seq<byte>, Error>
    requires WellFormed(n)
  {
    var k := Matched(n, p);
    var m := Follow(n, p[..k]).value;
    if k == |p| then
      if m.url == [] then Failure(NotFound) else Success(m.url)
    else if m.template == [] then Failure(NotFound)
    else Success(Sprintf(m.template, PathEscape(Join(p[k..]))))
  }

  /** Following `a` then `b` is following `a + b`. */
  lemma {:induction false} FollowConcat(n: Node, a: seq<seq<byte>>, b: seq<seq<byte>>)
    ensures Follow(n, a + b) == (if Follow(n, a).Some? then Follow(Follow(n, a).value, b) else None)
    decreases |a|
  {
    if a != [] {
      assert (a + b)[0] == a[0] && (a + b)[1..] == a[1..] + b;
      if a[0] in n.children {
        FollowConcat(n.children[a[0]], a[1..], b);
      }
    } else {
      assert a + b == b;
    }
  }

  /**
   * Exact matches take precedence and are never undone: once the first `k`
   * tokens name a path of children, the answer is the answer of the node they
   * lead to for the remaining tokens, whatever templates lie above it, and
   * even when that answer is `NotFound`.
   */
  lemma {:induction false} ExactMatchPrecedence(n: Node, p: seq<seq<byte>>, k: nat)
    requires WellFormed(n)
    requires k <= |p| && Follow(n, p[..k]).Some?
    ensures Resolve(n, p) == Resolve(Follow(n, p[..k]).value, p[k..])
    decreases k
  {
    if k > 0 {
      assert p[..k][0] == p[0] && p[..k][1..] == p[1..][..k - 1];
      ExactMatchPrecedence(n.children[p[0]], p[1..], k - 1);
      assert p[1..][k - 1..] == p[k..];
    }
  }

  /** The recursive resolver and the stated-once definition agree on every tree and query. */
  lemma ResolveIsLookup(n: Node, p: seq<seq<byte>>)
    requires WellFormed(n)
    ensures Resolve(n, p) == Lookup(n, p)
  {
    var k := Matched(n, p);
    ExactMatchPrecedence(n, p, k);
    if k < |p| {
      assert p[k..][0] == p[k];
    }
  }

  /**
   * The tokens spell a path of child keys exactly when the walk uses them
   * all; the walk then answers with the url at the end of the path, or
   * `NotFound` when that url is empty, and no template takes part.
   */
  lemma {:induction false} LiteralHit(n: Node, p: seq<seq<byte>>)
    requires WellFormed(n)
    ensures Follow(n, p).Some? <==> Matched(n, p) == |p|
    ensures Follow(n, p).Some? ==>
      Resolve(n, p) == (if Follow(n, p).value.url == [] then Failure(NotFound) else Success(Follow(n, p).value.url))
  {
    var k := Matched(n, p);
    assert p[..|p|] == p;
    if k < |p| {
      FollowConcat(n, p[..k], p[k..]);
      assert p[..k] + p[k..] == p;
      assert p[k..][0] == p[k];
    }
    ResolveIsLookup(n, p);
  }

  /**
   * Template fallback: where the walk stops before the last token at a node
   * with a template, the answer is that template filled with every remaining
   * token, from the unmatched one on, joined by spaces and path-escaped; the
   * filled-in part holds no space, `/`, `?` or `#`. Without a template the
   * answer is `NotFound`.
   */
  lemma TemplateFallback(n: Node, p: seq<seq<byte>>, k: nat)
    requires WellFormed(n)
    requires k < |p| && Follow(n, p[..k]).Some? && p[k] !in Follow(n, p[..k]).value.children
    ensures var m := Follow(n, p[..k]).value;
      var filled := PathEscape(Join(p[k..]));
      && (m.template == [] ==> Resolve(n, p) == Failure(NotFound))
      && (m.template != [] ==> Resolve(n, p) == Success(Prefix(m.template) + filled + Suffix(m.template)))
      && Space !in filled && Slash !in filled && Question !in filled && Hash !in filled
  {
    ExactMatchPrecedence(n, p, k);
    assert p[k..][0] == p[k];
  }
}
