/// The raw-assembly lexer (lexer.h `RawAsmLexer`): strips comments, splits each
/// line into words and punctuation, classifies every word, and ends every
/// input line with a NEWLINE token.
module Lexer {
  import opened Common
  import opened Text
  import opened Tokens
  import TwoPass

  // ---- comments ----

  /// Index of the first `c` in `s`, if any.
  function FindChar(s: string, c: char): (r: Option<nat>)
    ensures r.Some? ==> r.value < |s| && s[r.value] == c && c !in s[..r.value]
    ensures r.None? ==> c !in s
  {
    if s == [] then None
    else if s[0] == c then Some(0)
    else
      match FindChar(s[1..], c)
      case None => None
      case Some(k) =>
        assert s[..k + 1] == [s[0]] + s[1..][..k];
        Some(k + 1)
  }

  /// "//" starts at index `i` of `s`.
  predicate SlashesAt(s: string, i: int) {
    0 <= i && i + 1 < |s| && s[i] == '/' && s[i + 1] == '/'
  }

  /// Index of the first "//" in `s`, if any.
  function FindSlashes(s: string): (r: Option<nat>)
    ensures r.Some? ==> SlashesAt(s, r.value) && forall i :: 0 <= i < r.value ==> !SlashesAt(s, i)
    ensures r.None? ==> forall i :: 0 <= i < |s| ==> !SlashesAt(s, i)
  {
    if |s| < 2 then None
    else if s[0] == '/' && s[1] == '/' then Some(0)
    else
      assert forall i :: 1 <= i < |s| ==> (SlashesAt(s, i) <==> SlashesAt(s[1..], i - 1));
      match FindSlashes(s[1..])
      case None => None
      case Some(k) => Some(k + 1)
  }

  /// `stripComment`: cuts the line at its first ';' when it has one, and
  /// otherwise at its first "//". The result is a prefix of the line.
  function StripComment(line: string): (r: string)
    ensures r <= line
    ensures ';' in line ==> ';' !in r && |r| < |line| && line[|r|] == ';'
    ensures ';' !in line ==> forall i :: 0 <= i < |r| ==> !SlashesAt(line, i)
    ensures ';' !in line && |r| < |line| ==> SlashesAt(line, |r|)
  {
    match FindChar(line, ';')
    case Some(pos) => line[..pos]
    case None =>
      match FindSlashes(line)
      case Some(pos) => line[..pos]
      case None => line
  }

  /// Because ';' is looked for first, a "//" before a ';' does not start a
  /// comment.
  lemma SemicolonTakesPrecedence()
    ensures StripComment("b x // y; z") == "b x // y"
  {
    var line := "b x // y; z";
    assert line[8] == ';';
    assert ';' !in line[..8];
  }

  // ---- classification ----

  /// The ten condition suffixes that split a "b.<cond>" word.
  const CondSuffixes: set<string> := {".eq", ".ne", ".hs", ".lo", ".hi", ".ls", ".ge", ".lt", ".gt", ".le"}

  /// The lexer splits off exactly the suffixes the assembler's condition
  /// table knows.
  lemma CondSuffixesAreCondCodes()
    ensures CondSuffixes == TwoPass.CondCodes.Keys
  {
    assert forall s :: s in TwoPass.CondCodes.Keys ==> s in CondSuffixes;
  }

  /// `classify`: the first matching rule decides — a trailing ':' is a label,
  /// a leading '.' a directive, then hexadecimal and decimal literals, "xzr",
  /// 'x' followed by a digit; everything else (mnemonics, label references,
  /// "sp") is an ID. Only the empty word is NONE, and no word is a NEWLINE.
  function Classify(word: string): (t: Token)
    ensures t.lexeme == word
    ensures t.kind == NONE <==> word == []
    ensures t.kind != NEWLINE
    ensures t.kind == LABEL <==> word != [] && word[|word| - 1] == ':'
    ensures t.kind == DOTID <==> word != [] && word[|word| - 1] != ':' && word[0] == '.'
    ensures t.kind == HEXINT <==> HasHexPrefix(word) && word[|word| - 1] != ':'
    ensures t.kind == INT <==> IsInteger(word)
    ensures t.kind == ZREG <==> word == "xzr"
    ensures t.kind == REG <==> |word| >= 2 && word[0] == 'x' && IsDigit(word[1]) && word[|word| - 1] != ':'
    ensures t.kind == REG ==> IsReg(word)
    ensures t.kind == ID <==> word != [] && word[|word| - 1] != ':' && word[0] != '.' && !HasHexPrefix(word)
                              && !IsInteger(word) && word != "xzr" && !(|word| >= 2 && word[0] == 'x' && IsDigit(word[1]))
  {
    if word == [] then Token(NONE, word)
    else if word[|word| - 1] == ':' then Token(LABEL, word)
    else if word[0] == '.' then Token(DOTID, word)
    else if HasHexPrefix(word) then Token(HEXINT, word)
    else if IsInteger(word) then Token(INT, word)
    else if word == "xzr" then Token(ZREG, word)
    else if |word| >= 2 && word[0] == 'x' && IsDigit(word[1]) then Token(REG, word)
    else Token(ID, word)
  }

  /// Concatenated lexemes of a token sequence.
  function Lexemes(ts: seq<Token>): string {
    if ts == [] then "" else ts[0].lexeme + Lexemes(ts[1..])
  }

  lemma {:induction false} LexemesAppend(a: seq<Token>, b: seq<Token>)
    ensures Lexemes(a + b) == Lexemes(a) + Lexemes(b)
    decreases |a|
  {
    if a != [] {
      assert (a + b)[0] == a[0];
      assert (a + b)[1..] == a[1..] + b;
      LexemesAppend(a[1..], b);
      calc {
        Lexemes(a + b);
        a[0].lexeme + Lexemes(a[1..] + b);
        a[0].lexeme + (Lexemes(a[1..]) + Lexemes(b));
        (a[0].lexeme + Lexemes(a[1..])) + Lexemes(b);
      }
    } else {
      assert a + b == b;
    }
  }

  /// A token a line may hold: a real type other than NEWLINE, with a lexeme.
  predicate LineToken(t: Token) {
    t.kind != NONE && t.kind != NEWLINE && t.lexeme != []
  }

  /// `classifyAndPush`: the tokens one word contributes. "b.<cond>" with a
  /// known suffix gives ID "b" and DOTID ".<cond>"; any other nonempty word
  /// gives its classification. The lexemes always spell the word back.
  function WordTokens(word: string): (ts: seq<Token>)
    ensures |ts| <= 2
    ensures Lexemes(ts) == word
    ensures forall k :: 0 <= k < |ts| ==> LineToken(ts[k])
  {
    if word == [] then []
    else if |word| >= 4 && word[0] == 'b' && word[1] == '.' && word[1..] in CondSuffixes then
      var ts := [Token(ID, "b"), Token(DOTID, word[1..])];
      assert Lexemes(ts[1..]) == word[1..] + Lexemes([]);
      assert word == "b" + word[1..];
      ts
    else
      assert Lexemes([Classify(word)]) == word + Lexemes([]);
      [Classify(word)]
  }

  // ---- tokenizing one line ----

  /// A character that continues a word: not whitespace and not punctuation.
  predicate IsWordChar(c: char) {
    !IsSpace(c) && c != ',' && c != '[' && c != ']'
  }

  /// Length of the word at the start of `s`.
  function WordRun(s: string): (n: nat)
    ensures n <= |s|
    ensures forall i :: 0 <= i < n ==> IsWordChar(s[i])
    ensures n < |s| ==> !IsWordChar(s[n])
  {
    if s == [] || !IsWordChar(s[0]) then 0 else 1 + WordRun(s[1..])
  }

  lemma {:induction false} WordRunIs(s: string, n: nat)
    requires n <= |s| && forall i :: 0 <= i < n ==> IsWordChar(s[i])
    requires n < |s| ==> !IsWordChar(s[n])
    ensures WordRun(s) == n
    decreases n
  {
    if n > 0 {
      WordRunIs(s[1..], n - 1);
    }
  }

  /// The tokens of a comment-free line, in order: whitespace separates,
  /// ',' '[' ']' are tokens of their own, every other run is a word.
  function Scan(s: string): seq<Token>
    decreases |s|
  {
    if s == [] then []
    else if IsSpace(s[0]) then Scan(s[1..])
    else if s[0] == ',' then [Token(COMMA, ",")] + Scan(s[1..])
    else if s[0] == '[' then [Token(LBRACK, "[")] + Scan(s[1..])
    else if s[0] == ']' then [Token(RBRACK, "]")] + Scan(s[1..])
    else
      var n := WordRun(s);
      WordTokens(s[..n]) + Scan(s[n..])
  }

  lemma TokensAssociate(a: seq<Token>, b: seq<Token>, c: seq<Token>)
    ensures (a + b) + c == a + (b + c)
  {
  }

  /// One punctuation character at `i` is one token.
  lemma ScanPunctuation(line: string, i: nat, t: Token)
    requires i < |line| && !IsSpace(line[i]) && !IsWordChar(line[i])
    requires t == (if line[i] == ',' then Token(COMMA, ",") else if line[i] == '[' then Token(LBRACK, "[") else Token(RBRACK, "]"))
    ensures Scan(line[i..]) == [t] + Scan(line[i + 1..])
  {
    assert line[i..][1..] == line[i + 1..];
  }

  /// The word from `start` to `i` contributes its tokens, then scanning goes on at `i`.
  lemma ScanWord(line: string, start: nat, i: nat)
    requires start < i <= |line|
    requires forall k :: start <= k < i ==> IsWordChar(line[k])
    requires i < |line| ==> !IsWordChar(line[i])
    ensures Scan(line[start..]) == WordTokens(line[start..i]) + Scan(line[i..])
  {
    var rest := line[start..];
    WordRunIs(rest, i - start);
    assert rest[..i - start] == line[start..i];
    assert rest[i - start..] == line[i..];
  }

  /// End of the word that starts at `start`.
  method WordEnd(line: string, start: nat) returns (i: nat)
    requires start < |line| && IsWordChar(line[start])
    ensures start < i <= |line|
    ensures forall k :: start <= k < i ==> IsWordChar(line[k])
    ensures i < |line| ==> !IsWordChar(line[i])
  {
    i := start;
    while i < |line| && IsWordChar(line[i])
      invariant start <= i <= |line|
      invariant forall k :: start <= k < i ==> IsWordChar(line[k])
    {
      i := i + 1;
    }
  }

  /// `tokenizeLine`: appends the tokens of the line, comment removed.
  method TokenizeLine(raw: string, out0: seq<Token>) returns (out: seq<Token>)
    ensures out == out0 + Scan(StripComment(raw))
  {
    var line := StripComment(raw);
    out := out0;
    var i := 0;
    while i < |line|
      invariant i <= |line|
      invariant out + Scan(line[i..]) == out0 + Scan(line)
      decreases |line| - i
    {
      if IsSpace(line[i]) {
        assert line[i..][1..] == line[i + 1..];
        i := i + 1;
      } else if !IsWordChar(line[i]) {
        var t := if line[i] == ',' then Token(COMMA, ",") else if line[i] == '[' then Token(LBRACK, "[") else Token(RBRACK, "]");
        ScanPunctuation(line, i, t);
        TokensAssociate(out, [t], Scan(line[i + 1..]));
        out := out + [t];
        i := i + 1;
      } else {
        var start := i;
        i := WordEnd(line, start);
        ScanWord(line, start, i);
        TokensAssociate(out, WordTokens(line[start..i]), Scan(line[i..]));
        out := out + WordTokens(line[start..i]);
      }
    }
    assert line[0..] == line;
  }

  /// Every scanned token is a line token: never NONE, never NEWLINE, never
  /// an empty lexeme.
  lemma {:induction false} ScanTokens(s: string)
    ensures forall k :: 0 <= k < |Scan(s)| ==> LineToken(Scan(s)[k])
    decreases |s|
  {
    if s == [] {
    } else if IsSpace(s[0]) || s[0] == ',' || s[0] == '[' || s[0] == ']' {
      ScanTokens(s[1..]);
    } else {
      ScanTokens(s[WordRun(s)..]);
    }
  }

  /// The characters of `s` that are not whitespace, in order.
  function NonSpace(s: string): string {
    if s == [] then "" else (if IsSpace(s[0]) then "" else [s[0]]) + NonSpace(s[1..])
  }

  lemma {:induction false} NonSpaceAppend(a: string, b: string)
    ensures NonSpace(a + b) == NonSpace(a) + NonSpace(b)
    decreases |a|
  {
    if a != [] {
      var h := if IsSpace(a[0]) then "" else [a[0]];
      assert (a + b)[0] == a[0];
      assert (a + b)[1..] == a[1..] + b;
      NonSpaceAppend(a[1..], b);
      calc {
        NonSpace(a + b);
        h + NonSpace(a[1..] + b);
        h + (NonSpace(a[1..]) + NonSpace(b));
        (h + NonSpace(a[1..])) + NonSpace(b);
      }
    } else {
      assert a + b == b;
    }
  }

  lemma {:induction false} NonSpaceOfWord(w: string)
    requires forall i :: 0 <= i < |w| ==> IsWordChar(w[i])
    ensures NonSpace(w) == w
    decreases |w|
  {
    if w != [] {
      NonSpaceOfWord(w[1..]);
      assert w == [w[0]] + w[1..];
    }
  }

  /// Tokenizing drops whitespace and nothing else: the lexemes spell out the
  /// line's non-blank characters in order (so punctuation needs no spaces).
  lemma {:induction false} ScanKeepsText(s: string)
    ensures Lexemes(Scan(s)) == NonSpace(s)
    decreases |s|
  {
    if s == [] {
    } else if IsSpace(s[0]) {
      ScanKeepsText(s[1..]);
    } else if s[0] == ',' || s[0] == '[' || s[0] == ']' {
      ScanKeepsText(s[1..]);
      LexemesAppend([Scan(s)[0]], Scan(s[1..]));
    } else {
      var n := WordRun(s);
      ScanKeepsText(s[n..]);
      LexemesAppend(WordTokens(s[..n]), Scan(s[n..]));
      assert s == s[..n] + s[n..];
      NonSpaceAppend(s[..n], s[n..]);
      NonSpaceOfWord(s[..n]);
    }
  }

  /// A conditional branch with its operand: "b.eq" splits in two.
  lemma ScanBranch()
    ensures Scan("b.eq done") == [Token(ID, "b"), Token(DOTID, ".eq"), Token(ID, "done")]
  {
    var s := "b.eq done";
    ScanWord(s, 0, 4);
    assert s[0..] == s && s[0..4] == "b.eq" && s[4..] == " done";
    BranchWord();
    ScanDone();
  }

  lemma BranchWord()
    ensures WordTokens("b.eq") == [Token(ID, "b"), Token(DOTID, ".eq")]
  {
    assert "b.eq"[1..] == ".eq";
  }

  lemma ScanDone()
    ensures Scan(" done") == [Token(ID, "done")]
  {
    var s := " done";
    assert s[0..][1..] == s[1..];
    ScanWord(s, 1, 5);
    assert s[1..5] == "done" && s[5..] == [];
    assert !IsInteger("done") by {
      assert !IsDigit("done"[0]);
    }
    assert WordTokens("done") == [Token(ID, "done")];
  }

  // ---- whole input ----

  /// The tokens of one input line.
  function LineTokens(raw: string): seq<Token> {
    Scan(StripComment(raw))
  }

  /// `lex`: each line's tokens followed by one NEWLINE.
  function LexText(lines: seq<string>): seq<Token> {
    if lines == [] then []
    else LexText(lines[..|lines| - 1]) + LineTokens(lines[|lines| - 1]) + [Token(NEWLINE, "")]
  }

  /// `RawAsmLexer::lex` over the lines of the input.
  method Lex(lines: seq<string>) returns (tokens: seq<Token>)
    ensures tokens == LexText(lines)
  {
    tokens := [];
    for k := 0 to |lines|
      invariant tokens == LexText(lines[..k])
    {
      assert lines[..k + 1][..k] == lines[..k];
      tokens := TokenizeLine(lines[k], tokens);
      tokens := tokens + [Token(NEWLINE, "")];
    }
    assert lines[..|lines|] == lines;
  }

  /// Number of NEWLINE tokens.
  function Newlines(ts: seq<Token>): nat {
    if ts == [] then 0 else Newlines(ts[..|ts| - 1]) + (if ts[|ts| - 1].kind == NEWLINE then 1 else 0)
  }

  lemma {:induction false} NewlinesNone(ts: seq<Token>)
    requires forall k :: 0 <= k < |ts| ==> ts[k].kind != NEWLINE
    ensures Newlines(ts) == 0
    decreases |ts|
  {
    if ts != [] {
      NewlinesNone(ts[..|ts| - 1]);
    }
  }

  lemma {:induction false} NewlinesAppend(a: seq<Token>, b: seq<Token>)
    ensures Newlines(a + b) == Newlines(a) + Newlines(b)
    decreases |b|
  {
    if b == [] {
      assert a + b == a;
    } else {
      assert (a + b)[..|a + b| - 1] == a + b[..|b| - 1];
      NewlinesAppend(a, b[..|b| - 1]);
    }
  }

  /// Exactly one NEWLINE per input line.
  lemma {:induction false} LexNewlines(lines: seq<string>)
    ensures Newlines(LexText(lines)) == |lines|
    decreases |lines|
  {
    if lines != [] {
      var prefix := lines[..|lines| - 1];
      var ts := LineTokens(lines[|lines| - 1]);
      LexNewlines(prefix);
      ScanTokens(StripComment(lines[|lines| - 1]));
      NewlinesNone(ts);
      NewlinesAppend(LexText(prefix), ts);
      NewlinesAppend(LexText(prefix) + ts, [Token(NEWLINE, "")]);
    }
  }

  /// The nonempty lines' tokens, in order.
  function LexedLines(lines: seq<string>): seq<TwoPass.Line> {
    if lines == [] then []
    else
      var ts := LineTokens(lines[|lines| - 1]);
      LexedLines(lines[..|lines| - 1]) + (if ts == [] then [] else [ts])
  }

  lemma {:induction false} GroupStateNoNewline(a: seq<Token>, l: seq<Token>)
    requires forall k :: 0 <= k < |l| ==> l[k].kind != NEWLINE
    ensures TwoPass.GroupState(a + l) == (TwoPass.GroupState(a).0 + l, TwoPass.GroupState(a).1)
    decreases |l|
  {
    if l == [] {
      assert a + l == a;
      assert TwoPass.GroupState(a).0 + l == TwoPass.GroupState(a).0;
    } else {
      var p := l[..|l| - 1];
      var t := l[|l| - 1];
      assert (a + l)[..|a + l| - 1] == a + p;
      assert (a + l)[|a + l| - 1] == t;
      GroupStateNoNewline(a, p);
      assert (TwoPass.GroupState(a).0 + p) + [t] == TwoPass.GroupState(a).0 + l;
    }
  }

  lemma {:induction false} LexGroupState(lines: seq<string>)
    ensures TwoPass.GroupState(LexText(lines)) == ([], LexedLines(lines))
    decreases |lines|
  {
    if lines == [] {
      assert LexText(lines) == [];
      assert TwoPass.GroupState([]) == ([], []);
    } else {
      var prefix := lines[..|lines| - 1];
      var ts := LineTokens(lines[|lines| - 1]);
      var before := LexText(prefix);
      LexGroupState(prefix);
      ScanTokens(StripComment(lines[|lines| - 1]));
      assert forall k :: 0 <= k < |ts| ==> ts[k].kind != NEWLINE by {
        forall k | 0 <= k < |ts|
          ensures ts[k].kind != NEWLINE
        {
          assert LineToken(ts[k]);
        }
      }
      GroupStateNoNewline(before, ts);
      assert [] + ts == ts;
      var all := before + ts + [Token(NEWLINE, "")];
      assert all[..|all| - 1] == before + ts;
      assert LexText(lines) == all;
      if ts == [] {
        assert LexedLines(lines) == LexedLines(prefix) + [];
        assert LexedLines(prefix) + [] == LexedLines(prefix);
        assert TwoPass.GroupState(all) == ([], LexedLines(prefix));
      } else {
        assert LexedLines(lines) == LexedLines(prefix) + [ts];
        assert TwoPass.GroupState(all) == ([], LexedLines(prefix) + [ts]);
      }
    }
  }

  /// The assembler's line grouping recovers the lexer's lines exactly:
  /// every nonempty input line becomes one assembler line holding its tokens.
  lemma LexGroups(lines: seq<string>)
    ensures TwoPass.GroupLines(LexText(lines)) == LexedLines(lines)
  {
    LexGroupState(lines);
  }
}
