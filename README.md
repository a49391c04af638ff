# Redirect resolver, modelled in Dafny

This project models the core of `r`, a small HTTP "go-link" service. A
request carries a query value `to`, for example `wiki Go (language)`. The
service splits that value on spaces into tokens and walks a read-only tree
with them, one token per level. It then redirects to the URL the walk
produces, or answers 404.

Each tree node has three parts:

- a `url`, which is the answer when the tokens run out;
- `children`, keyed by exact token;
- a `template` with one `%s`.

When no child matches the next token, the template receives every
remaining token. The tokens are joined with spaces and path-escaped before
they are put in.

Modules, one per file:

- `GoStrings` (`gostrings.dfy`) holds Go strings as byte sequences, and
  `strings.Split` and `strings.Join` with the separator `" "`.
- `UrlEscape` (`urlescape.dfy`) holds `url.PathEscape`, which is
  percent-encoding (section 2.1 of RFC 3986) of one path segment (section
  3.3 of RFC 3986). Its inverse `PathUnescape` serves only as the
  specification that escaping loses nothing.
- `Format` (`format.dfy`) holds `fmt.Sprintf` for a template with a single
  `%s`.
- `Resolver` (`resolver.dfy`) holds the tree `Node`, `node.resolve` as
  `Resolve`, and a second definition of resolution that the lemmas connect
  to `Resolve`. It first finds the longest run of tokens naming children
  (`Matched`, `Follow`) and then decides once (`Lookup`).
- `Dispatch` (`dispatch.dfy`) holds the decisions of `ServeHTTP`: how the
  query value is split, and how the outcome maps to a status, a `Location`
  header and a body.
- `Scenarios` (`scenarios.dfy`) holds three end-to-end examples, proved:
  - a literal hit;
  - a search template on the root;
  - a child whose template takes the remaining tokens.
- `Wrappers` (`wrappers.dfy`) holds `Option` and `Result`.

Go's `strings`, `net/url` and `fmt` packages are not part of this model.
Their behaviour as used here is written out from their documented
semantics. `PathEscape` keeps letters, digits, `- _ . ~` and the
sub-delimiters `$ & + : = @` as they are. It encodes every other byte as
`%XY` with upper-case hex digits, including space, `/`, `;`, `,`, `?`, `#`
and `%`.

Two details of the code that the model keeps as they are:

- An absent `url` or `template` is the empty string. A node has no template
  exactly when its template is `""` (main.go:45).
- The handler reads `to` through `r.URL.Query().Get`, which decodes the
  value. The model's input is that decoded value, not the raw query text.

## Model

| member | source | states |
|---|---|---|
| `Resolver.Resolve` | main.go:31-52 | The only error resolution can produce is `NotFound`; each recursive call consumes exactly one token, so it terminates |
| `Resolver.Follow` | main.go:40-42 | Following a path of child keys from a well-formed node reaches a well-formed node |
| `Resolver.FollowConcat` | main.go:40-42 | Following keys `a` then keys `b` is following `a + b` |
| `Resolver.Matched` | main.go:40-43 | The number of leading tokens that name a path of children: at most the number of tokens (the depth of the recursion), the path exists, and the next token, if any, names no child where it ends |
| `Resolver.ExactMatchPrecedence` | main.go:40-43 | Once the first `k` tokens name a path of children, the result is exactly the result of the node they reach on the remaining tokens, whatever templates lie above; a failure there is not retried with an ancestor's template |
| `Resolver.ResolveIsLookup` | main.go:31-52 | The recursive resolver equals the two-phase definition: find the longest run of tokens that names children (`Matched`, `Follow`), then decide once (`Lookup`) by taking the url (all tokens used) or the template filled with the remaining tokens |
| `Resolver.LiteralHit` | main.go:31-43 | The tokens spell a path of child keys exactly when the walk consumes them all; then the result is that node's url unchanged, or `NotFound` when the url is empty (with zero tokens: the node's own url) |
| `Resolver.TemplateFallback` | main.go:45-51 | Where the walk stops at an unmatched token, the result is the template's prefix, then every remaining token from the unmatched one on, joined by spaces and path-escaped, then the suffix; the inserted part holds no space, `/`, `?` or `#`; with no template the result is `NotFound` |
| `GoStrings.Split` | main.go:61 | Splitting on `" "` yields one more token than there are spaces, so always at least one, and no token contains a space |
| `GoStrings.JoinSplit` | main.go:61 | Joining the tokens with spaces gives back the query value: splitting loses nothing |
| `GoStrings.Join` | main.go:51 | Joining begins with the first token; joining at least one space-free token puts exactly one separator between neighbours, so the result holds one space fewer than there are tokens (its inverse is `SplitJoin`) |
| `GoStrings.SplitJoin` | main.go:51 | Splitting the space-join of at least one space-free token gives the tokens back |
| `UrlEscape.EscapeByte` | main.go:51 | A byte to be escaped becomes `%` followed by two upper-case hex digits (`0`-`9`, `A`-`F`) whose value is the byte; any other byte is kept as it is |
| `UrlEscape.PathEscape` | main.go:51 | Every output byte is `%` or a byte a path segment may carry; no space, `/`, `?` or `#`; the output is at least as long as the input and at most three times as long |
| `UrlEscape.UnescapeEscape` | main.go:51 | Unescaping the escaped text gives back the input, for every byte string |
| `UrlEscape.EscapeConcat` | main.go:51 | Escaping works byte by byte: it distributes over concatenation |
| `UrlEscape.EscapeSafe` | main.go:51 | Text made only of bytes a segment may carry is left unchanged |
| `UrlEscape.EscapeExamples` | main.go:51 | A space becomes `%20`, `(` becomes `%28`, `)` becomes `%29`, `/` becomes `%2F` |
| `Format.TemplateParts` | main.go:45 | A one-verb template is its prefix, `%s` and its suffix, so it is never empty: `Template == ""` means exactly "no template" |
| `Format.Sprintf` | main.go:51 | The result is as long as the template without its two verb bytes plus the argument |
| `Format.SprintfAround` | main.go:51 | Any `%`-free prefix and suffix around `%s` form a valid template, and formatting puts the argument exactly between them |
| `Resolver.ErrorText` | main.go:16 | The text of `ErrNotFound` is `not found`; any other error reports its own text, as `err.Error()` does on main.go:67 and main.go:71 |
| `Dispatch.Respond` | main.go:65-76 | `NotFound` gives 404 with the error text and no Location; any other error gives 500 with its text; success gives 307 with Location equal to the destination verbatim and an empty body |
| `Dispatch.RespondIsFaithful` | main.go:65-76 | The response reports exactly the outcome it was made from |
| `Dispatch.Handle` | main.go:54-77 | A request is answered with a 307 carrying a Location or a 404 with body `not found`, never a 500, because resolution fails only with `NotFound` |
| `Dispatch.RootUrlUnused` | main.go:61-63 | Changing the root's url changes no response: every query has at least one token, so the root's own url is never the answer |
| `Dispatch.EmptyQuery` | main.go:61-63 | An empty query is one empty token: it goes to the child keyed `""` if any, else to the root's template filled with the empty string, else 404 |
| `Dispatch.TemplateOnlyNode` | main.go:45-51 | A node with only a template answers the tokens of any query value with the template filled with that whole value, path-escaped |
| `Dispatch.TemplateOnlyRoot` | main.go:61-76 | A root with only a template redirects every query value to the template filled with the escaped value |
| `Dispatch.EmptyTree` | main.go:31-47 | A tree with no url, children or template answers every query with 404 `not found` |
| `Scenarios.LiteralScenario` | main.go:54-77 | `{children: {"maps": {url: "https://maps.example/"}}}` with `to=maps` redirects to `https://maps.example/` |
| `Scenarios.SearchScenario` | main.go:54-77 | `{template: "https://search.example/?q=%s"}` with `to=foo bar` redirects to `https://search.example/?q=foo%20bar` |
| `Scenarios.WikiScenario` | main.go:54-77 | `{children: {"wiki": {template: "https://en.wikipedia.org/wiki/%s"}}}` with `to=wiki Go (language)` redirects to `https://en.wikipedia.org/wiki/Go%20%28language%29` |

Resolution is deterministic because `Resolve` is a function of the tree and
the tokens. No lemma states this separately.

`EscapeSafe` has a consequence worth knowing: `+`, `&` and `=` pass through
`PathEscape` unchanged. A template whose `%s` sits in a query string, like
the search example, therefore receives them as query syntax. For instance,
the token `a&b` becomes `?q=a&b`.

## Left out

- `Resolver.Resolve`, and everything built on it, requires every template
  in the tree to be empty or to hold exactly one `%`, followed by `s`.
  `fmt.Sprintf`'s output for other templates is not modelled: other verbs,
  `%%`, a missing verb or a second verb.
- `main`, `Main` and `init` (main.go:79-122) are not modelled. They cover
  reading `os.Args`, `HOME` and `PORT`, opening and JSON-decoding the
  configuration, and `http.ListenAndServe`. This is process and I/O
  plumbing; the model takes the decoded tree as a value.
- Logging with `slog` (main.go:49, 64, 80) is not modelled. It has no
  effect on any result.
- Writing to the `http.ResponseWriter` becomes a returned
  `(status, location, body)` value. Other headers that `net/http` adds are
  not modelled.
- Query parsing and percent-decoding by `r.URL.Query()` are not modelled.
  The decoded `to` value is the input.
- Concurrent request handling is not modelled. The tree is shared
  read-only.
- A `null` child in the configuration decodes to a nil `*node`, and
  resolving through it panics in Go. The model's tree has no nil nodes.
- Strings are byte sequences without an encoding. Any byte, including
  non-ASCII UTF-8 bytes, is escaped one at a time, as Go does.
