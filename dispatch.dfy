/**
 * The decision logic of the request handler (`node.ServeHTTP`): split the
 * `to` query value on spaces, resolve the tokens from the root, and turn the
 * outcome into a status, an optional `Location` header and a body.
 */
module Dispatch {
  import opened Wrappers
  import opened GoStrings
  import opened UrlEscape
  import opened Format
  import opened Resolver

  const StatusTemporaryRedirect := 307
  const StatusNotFound := 404
  const StatusInternalServerError := 500

  /** What the handler writes to the `http.ResponseWriter`. */
  datatype Response = Response(status: int, location: Option<seq<byte>>, body: seq<byte>)

  /**
   * The response for a resolution outcome: a 307 redirect to the destination
   * verbatim, a 404 carrying the error text for `NotFound`, a 500 carrying the
   * error text for any other error; only a redirect sets `Location`.
   */
  function Respond(r: Result<seq<byte>, Error>): (resp: Response)
    ensures resp.status == StatusTemporaryRedirect <==> r.Success?
    ensures resp.status == StatusNotFound <==> r == Failure(NotFound)
    ensures resp.status == StatusInternalServerError <==> r.Failure? && r.error != NotFound
    ensures resp.location.Some? <==> r.Success?
    ensures r.Success? ==> resp.location.value == r.value && resp.body == []
    ensures r.Failure? ==> resp.body == ErrorText(r.error)
  {
    match r
    case Failure(NotFound) =>
      Response(StatusNotFound, None, ErrorText(NotFound))
    case Failure(e) =>
      Response(StatusInternalServerError, None, ErrorText(e))
    case Success(to) =>
      Response(StatusTemporaryRedirect, Some(to), [])
  }

  /** What a client can tell from a response: the outcome it reports, if any. */
  function Reported(resp: Response): Option<Result<seq<byte>, Error>>
  {
    if resp.status == StatusTemporaryRedirect && resp.location.Some? then Some(Success(resp.location.value))
    else if resp.status == StatusNotFound then Some(Failure(NotFound))
    else if resp.status == StatusInternalServerError then Some(Failure(Other(resp.body)))
    else None
  }

  /** The response reports exactly the outcome it was made from. */
  lemma RespondIsFaithful(r: Result<seq<byte>, Error>)
    ensures Reported(Respond(r)) == Some(r)
  {
  }

  /**
   * `node.ServeHTTP` for the query value `to`. Because the resolver only
   * fails with `NotFound`, the answer is a redirect or a 404, never a 500.
   */
  function Handle(root: Node, to: seq<byte>): (resp: Response)
    requires WellFormed(root)
    ensures resp.status == StatusTemporaryRedirect || resp.status == StatusNotFound
    ensures resp.status == StatusTemporaryRedirect <==> resp.location.Some?
    ensures resp.status == StatusNotFound ==> resp.body == Bytes("not found")
  {
    Respond(Resolve(root, Split(to)))
  }

  /** The root's own url is never the answer: every query has at least one token. */
  lemma RootUrlUnused(root: Node, u: seq<byte>, to: seq<byte>)
    requires WellFormed(root)
    ensures WellFormed(root.(url := u))
    ensures Handle(root.(url := u), to) == Handle(root, to)
  {
  }

  /**
   * An empty query is one empty token: it goes to the child named by the
   * empty string if there is one, then to the root's template, and is
   * otherwise not found.
   */
  lemma EmptyQuery(root: Node)
    requires WellFormed(root)
    ensures [] in root.children ==> Handle(root, []) == Respond(Resolve(root.children[[]], []))
    ensures [] !in root.children && root.template != [] ==>
      Handle(root, []) == Response(StatusTemporaryRedirect, Some(Prefix(root.template) + Suffix(root.template)), [])
    ensures [] !in root.children && root.template == [] ==>
      Handle(root, []) == Response(StatusNotFound, None, Bytes("not found"))
  {
    assert Split([]) == [[]];
    assert Join([[]]) == [];
    assert PathEscape([]) == [];
    if [] !in root.children && root.template != [] {
      assert Resolve(root, [[]]) == Success(Sprintf(root.template, PathEscape(Join([[]]))));
      assert Sprintf(root.template, []) == Prefix(root.template) + Suffix(root.template);
    }
  }

  /**
   * A node that has only a template answers the tokens of any query value
   * with the template filled with that whole value, path-escaped: splitting
   * on spaces and joining with spaces cancel out.
   */
  lemma {:induction false} TemplateOnlyNode(u: seq<byte>, prefix: seq<byte>, suffix: seq<byte>, to: seq<byte>)
    requires Percent !in prefix && Percent !in suffix
    ensures WellFormed(Node(u, map[], prefix + Verb + suffix))
    ensures Resolve(Node(u, map[], prefix + Verb + suffix), Split(to)) == Success(prefix + PathEscape(to) + suffix)
  {
    var t := prefix + Verb + suffix;
    SprintfAround(prefix, suffix, PathEscape(to));
    JoinSplit(to);
    assert Split(to)[0] !in Node(u, map[], t).children;
  }

  /** So a root that has only a template redirects every query there. */
  lemma TemplateOnlyRoot(u: seq<byte>, prefix: seq<byte>, suffix: seq<byte>, to: seq<byte>)
    requires Percent !in prefix && Percent !in suffix
    ensures WellFormed(Node(u, map[], prefix + Verb + suffix))
    ensures Handle(Node(u, map[], prefix + Verb + suffix), to)
      == Response(StatusTemporaryRedirect, Some(prefix + PathEscape(to) + suffix), [])
  {
    TemplateOnlyNode(u, prefix, suffix, to);
  }

  /** A tree with nothing in it answers every query with 404 "not found". */
  lemma EmptyTree(to: seq<byte>)
    ensures WellFormed(Node([], map[], []))
    ensures Handle(Node([], map[], []), to) == Response(StatusNotFound, None, Bytes("not found"))
  {
  }
}
