/** `reformat`: parse a document, then format the tree. */
module Reformat {
  import opened Common
  import opened TokenTree
  import opened Parse
  import opened Format
  import ParseProperties
  import FormatProperties

  /** As the library composes them: a document that parses is formatted, anything else is the parse error. */
  function Reformat(src: string, o: FormatOptions): (r: Result<string, Error>)
    ensures r.Ok? <==> ParseStr(src).Ok?
    ensures r.Err? ==> r == Err(ParseStr(src).error)
  {
    var t :- ParseStr(src);
    Ok(FormatText(t, o, AsWritten))
  }

  /** The same composition with the corrected parser and formatter. */
  function ReformatKeepingComments(src: string, o: FormatOptions): (r: Result<string, Error>)
    ensures r.Ok? <==> Top(src, TokensOf(src), KeepFirst).Ok?
  {
    var t :- Top(src, TokensOf(src), KeepFirst);
    Ok(FormatText(t, o, KeepComments))
  }

  /**
   * Every comment of a document survives the corrected reformatting, except
   * the closing comments after a lone top-level value.
   */
  lemma ReformatKeepsComments(src: string, o: FormatOptions, c: Comment)
    requires ReformatKeepingComments(src, o).Ok?
    requires var toks := TokensOf(src);
      c in CommentsIn(toks, 0, |toks|) && c !in ParseProperties.TopDropped(src, toks, KeepFirst)
    ensures FormatProperties.IsInfix(c, ReformatKeepingComments(src, o).value)
  {
    var toks := TokensOf(src);
    var t := Top(src, toks, KeepFirst).value;
    ParseProperties.TopKeepsComments(src, toks);
    assert c in TreeComments(t) + ParseProperties.TopDropped(src, toks, KeepFirst);
    FormatProperties.FormatKeepsComments(t, o, c);
  }
}
