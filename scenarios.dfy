/**
 * The end-to-end scenarios of the redirect service, each proved for the
 * model: a literal hit, a search template on the root, and a child whose
 * template takes the remaining tokens.
 */
module Scenarios {
  import opened Wrappers
  import opened GoStrings
  import opened UrlEscape
  import opened Format
  import opened Resolver
  import opened Dispatch

  /** `{children: {"maps": {url: "https://maps.example/"}}}` sends `to=maps` to the url. */
  lemma LiteralScenario()
    ensures var root := Node([], map[Bytes("maps") := Node(Bytes("https://maps.example/"), map[], [])], []);
      && WellFormed(root)
      && Handle(root, Bytes("maps")) == Response(StatusTemporaryRedirect, Some(Bytes("https://maps.example/")), [])
  {
    var maps := Bytes("maps");
    assert Space !in maps by {
      forall i | 0 <= i < |maps| ensures maps[i] != Space { }
    }
    assert Split(maps) == [maps];
  }

  /** The search scenario's template, query and expected destination. */
  const SearchPrefix := Bytes("https://search.example/?q=")
  const SearchTemplate := Bytes("https://search.example/?q=%s")
  const FooBar := Bytes("foo bar")
  const FooBarTarget := Bytes("https://search.example/?q=foo%20bar")

  /** `{template: "https://search.example/?q=%s"}` sends `to=foo bar` to `...?q=foo%20bar`. */
  lemma SearchScenario()
    ensures WellFormed(Node([], map[], SearchTemplate))
    ensures Handle(Node([], map[], SearchTemplate), FooBar)
      == Response(StatusTemporaryRedirect, Some(FooBarTarget), [])
  {
    SearchTemplateParts();
    FooBarEscaped();
    TemplateOnlyRoot([], SearchPrefix, [], FooBar);
  }

  /** The search template, as the text around its verb. */
  lemma SearchTemplateParts()
    ensures Percent !in SearchPrefix
    ensures SearchTemplate == SearchPrefix + Verb + []
    ensures FooBarTarget == SearchPrefix + Bytes("foo%20bar") + []
  {
    BytesLack("https://search.example/?q=", '%');
    BytesConcat("https://search.example/?q=", "%s");
    BytesConcat("https://search.example/?q=", "foo%20bar");
  }

  /** The escaping step of the search scenario: the space becomes `%20`, the letters stay. */
  lemma FooBarEscaped()
    ensures PathEscape(FooBar) == Bytes("foo%20bar")
  {
    var foo, bar := Bytes("foo"), Bytes("bar");
    FooBarParts();
    LettersUnescaped("foo");
    LettersUnescaped("bar");
    EscapeExamples();
    EscapeConcat(foo, [Space] + bar);
    EscapeConcat([Space], bar);
  }

  /** The search query and its escaped form, piece by piece. */
  lemma FooBarParts()
    ensures FooBar == Bytes("foo") + ([Space] + Bytes("bar"))
    ensures Bytes("foo%20bar") == Bytes("foo") + (Bytes("%20") + Bytes("bar"))
  {
    BytesConcat("foo", " bar");
    BytesConcat(" ", "bar");
    assert Bytes(" ") == [Space];
    BytesConcat("foo", "%20bar");
    BytesConcat("%20", "bar");
  }

  /** Words of ASCII letters and digits are left as they are by escaping. */
  lemma LettersUnescaped(s: string)
    requires forall i | 0 <= i < |s| :: 'a' <= s[i] <= 'z' || 'A' <= s[i] <= 'Z' || '0' <= s[i] <= '9'
    ensures PathEscape(Bytes(s)) == Bytes(s)
  {
    var b := Bytes(s);
    assert forall i | 0 <= i < |b| :: IsAlnum(b[i]) by {
      forall i | 0 <= i < |b| ensures IsAlnum(b[i]) {
        assert b[i] as int == s[i] as int;
      }
    }
    EscapeSafe(b);
  }

  /** The wiki scenario's tree, query and expected destination. */
  const WikiTemplate := Bytes("https://en.wikipedia.org/wiki/%s")
  const WikiPrefix := Bytes("https://en.wikipedia.org/wiki/")
  const WikiKey := Bytes("wiki")
  const WikiQuery := Bytes("wiki Go (language)")
  const GoLanguage := Bytes("Go (language)")
  const WikiTarget := WikiPrefix + Bytes("Go%20%28language%29")

  /** `{children: {"wiki": {template: "https://en.wikipedia.org/wiki/%s"}}}` */
  function WikiTree(): Node
  {
    Node([], map[WikiKey := Node([], map[], WikiTemplate)], [])
  }

  /**
   * `{children: {"wiki": {template: "https://en.wikipedia.org/wiki/%s"}}}`
   * sends `to=wiki Go (language)` through the child `wiki`, whose template
   * receives the two remaining tokens, joined and escaped.
   */
  lemma WikiScenario()
    ensures WellFormed(WikiTree())
    ensures Handle(WikiTree(), WikiQuery) == Response(StatusTemporaryRedirect, Some(WikiTarget), [])
  {
    WikiChild();
    WikiDescent();
    WikiChildResolves();
  }

  /** The wiki node, on its own. */
  lemma WikiChild()
    ensures WellFormed(Node([], map[], WikiTemplate))
    ensures WellFormed(WikiTree())
  {
    WikiTemplateParts();
    SprintfAround(WikiPrefix, [], []);
  }

  /** The first token names the child `wiki`, which receives the rest. */
  lemma WikiDescent()
    ensures WellFormed(Node([], map[], WikiTemplate)) && WellFormed(WikiTree())
    ensures Resolve(WikiTree(), Split(WikiQuery)) == Resolve(Node([], map[], WikiTemplate), Split(GoLanguage))
  {
    WikiChild();
    assert Split(WikiQuery) == [WikiKey] + Split(GoLanguage) by {
      WikiQueryParts();
      SplitAtFirst(WikiKey, GoLanguage);
    }
    DescendOne(WikiTree(), WikiKey, Split(GoLanguage));
  }

  /** A first token naming a child hands the remaining tokens to that child. */
  lemma DescendOne(n: Node, key: seq<byte>, p: seq<seq<byte>>)
    requires WellFormed(n) && key in n.children
    ensures Resolve(n, [key] + p) == Resolve(n.children[key], p)
  {
    assert ([key] + p)[0] == key && ([key] + p)[1..] == p;
  }

  /** The child's template receives both remaining tokens. */
  lemma WikiChildResolves()
    ensures WellFormed(Node([], map[], WikiTemplate))
    ensures Resolve(Node([], map[], WikiTemplate), Split(GoLanguage)) == Success(WikiTarget)
  {
    WikiTemplateParts();
    TemplateOnlyNode([], WikiPrefix, [], GoLanguage);
    assert WikiPrefix + PathEscape(GoLanguage) + [] == WikiTarget by {
      GoLanguageEscaped();
    }
  }

  /** The wiki template, as the text around its verb. */
  lemma WikiTemplateParts()
    ensures Percent !in WikiPrefix
    ensures WikiTemplate == WikiPrefix + Verb + []
  {
    BytesLack("https://en.wikipedia.org/wiki/", '%');
    BytesConcat("https://en.wikipedia.org/wiki/", "%s");
  }

  /** The wiki query, as its first token, a separator and the rest. */
  lemma WikiQueryParts()
    ensures WikiQuery == WikiKey + [Space] + GoLanguage
    ensures Space !in WikiKey
  {
    BytesConcat("wiki", " Go (language)");
    BytesConcat(" ", "Go (language)");
    assert Bytes(" ") == [Space];
    BytesLack("wiki", ' ');
  }

  /** The escaping step of the wiki scenario. */
  lemma GoLanguageEscaped()
    ensures PathEscape(GoLanguage) == Bytes("Go%20%28language%29")
  {
    var go, language := Bytes("Go"), Bytes("language");
    GoLanguageParts();
    LettersUnescaped("Go");
    LettersUnescaped("language");
    EscapeExamples();
    EscapeConcat(go, [Space] + (['(' as byte] + (language + [')' as byte])));
    EscapeConcat([Space], ['(' as byte] + (language + [')' as byte]));
    EscapeConcat(['(' as byte], language + [')' as byte]);
    EscapeConcat(language, [')' as byte]);
  }

  /** The wiki query's tail and its escaped form, piece by piece. */
  lemma GoLanguageParts()
    ensures GoLanguage == Bytes("Go") + ([Space] + (['(' as byte] + (Bytes("language") + [')' as byte])))
    ensures Bytes("Go%20%28language%29")
      == Bytes("Go") + (Bytes("%20") + (Bytes("%28") + (Bytes("language") + Bytes("%29"))))
  {
    GoLanguageQuery();
    GoLanguageTarget();
  }

  /** The tail `Go (language)`, piece by piece. */
  lemma GoLanguageQuery()
    ensures GoLanguage == Bytes("Go") + ([Space] + (['(' as byte] + (Bytes("language") + [')' as byte])))
  {
    BytesConcat("Go", " (language)");
    BytesConcat(" ", "(language)");
    BytesConcat("(", "language)");
    BytesConcat("language", ")");
    assert Bytes(" ") == [Space] && Bytes("(") == ['(' as byte] && Bytes(")") == [')' as byte];
  }

  /** Its escaped form, piece by piece. */
  lemma GoLanguageTarget()
    ensures Bytes("Go%20%28language%29")
      == Bytes("Go") + (Bytes("%20") + (Bytes("%28") + (Bytes("language") + Bytes("%29"))))
  {
    BytesConcat("Go", "%20%28language%29");
    BytesConcat("%20", "%28language%29");
    BytesConcat("%28", "language%29");
    BytesConcat("language", "%29");
  }
}
