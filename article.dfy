/** The `Article` record of the struct exercise: an article number, a
    quantity and a description that `Article::new` cuts to at most 20
    bytes. The description is a Rust `String`, so it is modelled by its
    UTF-8 bytes; `truncate` panics unless the cut falls on a character
    boundary, which is therefore required of the caller. */
module Articles {
  import opened Bytes

  /** The description limit of the exercise: 20 characters in the C
      original, 20 bytes once it is a Rust `String`. */
  const DescriptionLimit: nat := 20

  /** A UTF-8 continuation byte, `0b10xx_xxxx`: no character starts there. */
  predicate IsContinuation(b: byte) {
    0x80 <= b < 0xC0
  }

  /** `String::is_char_boundary(i)`: the end of the string, or a byte that
      starts a character. */
  predicate IsCharBoundary(s: seq<byte>, i: nat) {
    i == |s| || (i < |s| && !IsContinuation(s[i]))
  }

  datatype Article = Article(articleNumber: int, quantity: int, description: seq<byte>)

  /** `Article::new`: keeps number and quantity, and keeps the description
      when it is at most 20 bytes long, else only its first 20 bytes. */
  function NewArticle(articleNumber: int, quantity: int, description: seq<byte>): (r: Article)
    requires |description| > DescriptionLimit ==> IsCharBoundary(description, DescriptionLimit)
    ensures r.articleNumber == articleNumber && r.quantity == quantity
    ensures |description| <= DescriptionLimit ==> r.description == description
    ensures |description| > DescriptionLimit ==> |r.description| == DescriptionLimit
    ensures r.description <= description
  {
    var desc := if |description| > DescriptionLimit then description[..DescriptionLimit] else description;
    Article(articleNumber, quantity, desc)
  }

  /** A stored description fits the limit, and building an article again
      from it changes nothing: truncation is idempotent. */
  lemma TruncationIdempotent(articleNumber: int, quantity: int, description: seq<byte>)
    requires |description| > DescriptionLimit ==> IsCharBoundary(description, DescriptionLimit)
    ensures |NewArticle(articleNumber, quantity, description).description| <= DescriptionLimit
    ensures var a := NewArticle(articleNumber, quantity, description);
      NewArticle(a.articleNumber, a.quantity, a.description) == a
  {
  }

  /** Two descriptions that agree on their first 20 bytes give the same
      article once both exceed the limit. */
  lemma TruncationKeepsPrefixOnly(n: int, q: int, d1: seq<byte>, d2: seq<byte>)
    requires |d1| > DescriptionLimit && |d2| > DescriptionLimit
    requires IsCharBoundary(d1, DescriptionLimit) && IsCharBoundary(d2, DescriptionLimit)
    requires d1[..DescriptionLimit] == d2[..DescriptionLimit]
    ensures NewArticle(n, q, d1) == NewArticle(n, q, d2)
  {
  }

  /** The articles `main` builds: a short description is kept, the long one
      is cut to "This is a very long ". */
  lemma ArticleExamples()
    ensures NewArticle(2002, 100, Ascii("Screwdriver Set")).description == Ascii("Screwdriver Set")
    ensures NewArticle(3003, 25, Ascii("This is a very long description that exceeds twenty characters")).description
         == Ascii("This is a very long ")
  {
    var head, tail := "This is a very long ", "description that exceeds twenty characters";
    assert head + tail == "This is a very long description that exceeds twenty characters";
    AsciiConcat(head, tail);
    assert (Ascii(head) + Ascii(tail))[..DescriptionLimit] == Ascii(head);
  }
}
