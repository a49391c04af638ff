/**
 * `fmt.Sprintf(template, s)` for the templates the configuration is meant to
 * hold: text with exactly one verb, `%s`, and no other `%`.
 */
module Format {
  import opened GoStrings
  import opened UrlEscape

  const Verb: seq<byte> := Bytes("%s")

  /** The template has one `%`, and it starts a `%s`. */
  predicate OneVerb(t: seq<byte>)
  {
    var i := IndexOf(t, Percent);
    0 <= i && i + 1 < |t| && t[i + 1] == 's' as byte && Percent !in t[i + 2..]
  }

  /** The text before the verb. */
  function Prefix(t: seq<byte>): (r: seq<byte>)
    requires OneVerb(t)
    ensures Percent !in r
  {
    t[..IndexOf(t, Percent)]
  }

  /** The text after the verb. */
  function Suffix(t: seq<byte>): (r: seq<byte>)
    requires OneVerb(t)
    ensures Percent !in r
  {
    t[IndexOf(t, Percent) + 2..]
  }

  /** A one-verb template is its prefix, the verb and its suffix, so it is never empty. */
  lemma TemplateParts(t: seq<byte>)
    requires OneVerb(t)
    ensures t == Prefix(t) + Verb + Suffix(t)
    ensures t != []
  {
    var i := IndexOf(t, Percent);
    assert t == t[..i] + t[i..i + 2] + t[i + 2..];
  }

  /** `fmt.Sprintf(t, arg)`: `arg` put in the place of the verb. */
  function Sprintf(t: seq<byte>, arg: seq<byte>): (r: seq<byte>)
    requires OneVerb(t)
    ensures |r| == |t| - 2 + |arg|
  {
    TemplateParts(t);
    Prefix(t) + arg + Suffix(t)
  }

  /**
   * Writing the template as text around `%s` is the same as giving it: any
   * `%`-free prefix and suffix make a one-verb template, and formatting puts
   * the argument between them.
   */
  lemma {:induction false} SprintfAround(prefix: seq<byte>, suffix: seq<byte>, arg: seq<byte>)
    requires Percent !in prefix && Percent !in suffix
    ensures OneVerb(prefix + Verb + suffix)
    ensures Sprintf(prefix + Verb + suffix, arg) == prefix + arg + suffix
  {
    var t := prefix + Verb + suffix;
    IndexAfter(prefix, Percent, Verb[1..] + suffix);
    assert Verb == [Percent] + Verb[1..];
    assert t == prefix + [Percent] + (Verb[1..] + suffix);
    assert t[..|prefix|] == prefix;
    assert t[|prefix| + 2..] == suffix;
  }
}
