/// Lexical tokens exchanged between the front ends and the assembler, and the
/// pre-tokenized text format ("TYPE lexeme" per token) they are read from (token.h).
module Tokens {
  import opened Common
  import opened Text

  datatype TokenType =
    | NONE | DOTID | LABEL | ID | HEXINT | REG | ZREG | INT | COMMA | LBRACK | RBRACK | NEWLINE

  datatype Token = Token(kind: TokenType, lexeme: string)

  /// The eleven printable type names.
  const TypeNames: set<string> :=
    {"DOTID", "LABEL", "ID", "HEXINT", "REG", "ZREG", "INT", "COMMA", "LBRACK", "RBRACK", "NEWLINE"}

  /// Parses a type name; every other string is NONE.
  function StringToTokenType(s: string): (t: TokenType)
    ensures t == NONE <==> s !in TypeNames
    ensures t != NONE ==> TokenTypeToString(t) == Ok(s)
  {
    if s == "DOTID" then DOTID
    else if s == "LABEL" then LABEL
    else if s == "ID" then ID
    else if s == "HEXINT" then HEXINT
    else if s == "REG" then REG
    else if s == "ZREG" then ZREG
    else if s == "INT" then INT
    else if s == "COMMA" then COMMA
    else if s == "LBRACK" then LBRACK
    else if s == "RBRACK" then RBRACK
    else if s == "NEWLINE" then NEWLINE
    else NONE
  }

  /// Prints a type name; NONE has none and is an error.
  function TokenTypeToString(t: TokenType): (r: Result<string>)
    ensures r.Err? <==> t == NONE
    ensures r.Ok? ==> r.value in TypeNames
  {
    match t
    case DOTID => Ok("DOTID")
    case LABEL => Ok("LABEL")
    case ID => Ok("ID")
    case HEXINT => Ok("HEXINT")
    case REG => Ok("REG")
    case ZREG => Ok("ZREG")
    case INT => Ok("INT")
    case COMMA => Ok("COMMA")
    case LBRACK => Ok("LBRACK")
    case RBRACK => Ok("RBRACK")
    case NEWLINE => Ok("NEWLINE")
    case NONE => Err(UnknownTokenType)
  }

  /// Printing then parsing a type name gives the type back.
  lemma TypeNameRoundTrip(t: TokenType)
    requires t != NONE
    ensures StringToTokenType(TokenTypeToString(t).value) == t
  {
  }

  /// Distinct types print differently.
  lemma TypeNamesDistinct(t1: TokenType, t2: TokenType)
    requires t1 != NONE && t2 != NONE && t1 != t2
    ensures TokenTypeToString(t1).value != TokenTypeToString(t2).value
  {
    TypeNameRoundTrip(t1);
    TypeNameRoundTrip(t2);
  }

  /// `operator<<`: the type name, one space, the lexeme.
  function WriteToken(tok: Token): (r: Result<string>)
    ensures r.Err? <==> tok.kind == NONE
  {
    var name :- TokenTypeToString(tok.kind);
    Ok(name + " " + tok.lexeme)
  }

  /// `operator>>` over the whitespace-separated words of the input: a type
  /// word, then a lexeme word unless the type is NEWLINE. Returns the token
  /// and the number of words consumed, or None when the input runs out.
  function ReadToken(words: seq<string>): (r: Option<(Token, nat)>)
    ensures r.Some? ==> r.value.1 <= |words|
  {
    if words == [] then None
    else
      var t := StringToTokenType(words[0]);
      if t == NEWLINE then Some((Token(NEWLINE, ""), 1))
      else if |words| < 2 then None
      else Some((Token(t, words[1]), 2))
  }

  /// What a writer may print and a reader get back: a NEWLINE with an empty
  /// lexeme, or any other real type with a single-word lexeme.
  predicate Printable(tok: Token) {
    tok.kind != NONE && if tok.kind == NEWLINE then tok.lexeme == "" else IsWord(tok.lexeme)
  }

  /// Every type name is a single word.
  lemma TypeNameIsWord(t: TokenType)
    requires t != NONE
    ensures IsWord(TokenTypeToString(t).value)
  {
  }

  /// The words of a written token: its type name, then its lexeme unless
  /// it is a NEWLINE.
  lemma WrittenWords(tok: Token)
    requires Printable(tok)
    ensures Split(WriteToken(tok).value) ==
      [TokenTypeToString(tok.kind).value] + (if tok.kind == NEWLINE then [] else [tok.lexeme])
  {
    var name := TokenTypeToString(tok.kind).value;
    TypeNameIsWord(tok.kind);
    SplitSpaceJoin(name, tok.lexeme);
    SplitWord(name);
    if tok.kind == NEWLINE {
      assert Split(tok.lexeme) == [];
    } else {
      SplitWord(tok.lexeme);
    }
  }

  /// Reading back a written token gives the token, consuming one word for a
  /// NEWLINE and two otherwise, whatever follows it.
  lemma ReadWriteRoundTrip(tok: Token, rest: seq<string>)
    requires Printable(tok)
    ensures var words := Split(WriteToken(tok).value);
      |words| == (if tok.kind == NEWLINE then 1 else 2) &&
      ReadToken(words + rest) == Some((tok, |words|))
  {
    WrittenWords(tok);
    TypeNameRoundTrip(tok.kind);
    var words := Split(WriteToken(tok).value);
    assert (words + rest)[0] == TokenTypeToString(tok.kind).value;
    if tok.kind != NEWLINE {
      assert (words + rest)[1] == tok.lexeme;
    }
  }
}
