/// Character classes and the whitespace word splitter shared by the
/// front ends (the `std::isspace`/`std::isdigit` tests, `split`, `isInteger`).
module Text {

  /// `std::isspace` in the "C" locale.
  predicate IsSpace(c: char) {
    c == ' ' || c == '\t' || c == '\n' || c == '\U{0B}' || c == '\U{0C}' || c == '\r'
  }

  /// `std::isdigit`.
  predicate IsDigit(c: char) {
    '0' <= c <= '9'
  }

  /// A nonempty run of non-whitespace characters, as `operator>>` reads it.
  predicate IsWord(w: string) {
    |w| > 0 && forall i :: 0 <= i < |w| ==> !IsSpace(w[i])
  }

  /// Length of the longest prefix of `s` without whitespace.
  function WordLength(s: string): (n: nat)
    ensures n <= |s|
    ensures forall i :: 0 <= i < n ==> !IsSpace(s[i])
    ensures n < |s| ==> IsSpace(s[n])
  {
    if s == [] || IsSpace(s[0]) then 0 else 1 + WordLength(s[1..])
  }

  /// The words that `while (ss >> w)` extracts from `s` (highlevel.h `split`).
  function Split(s: string): (words: seq<string>)
    decreases |s|
  {
    if s == [] then []
    else if IsSpace(s[0]) then Split(s[1..])
    else
      var n := WordLength(s);
      [s[..n]] + Split(s[n..])
  }

  /// Every extracted word is a nonempty run of non-whitespace characters.
  lemma {:induction false} SplitYieldsWords(s: string)
    ensures forall k :: 0 <= k < |Split(s)| ==> IsWord(Split(s)[k])
    decreases |s|
  {
    if s == [] {
    } else if IsSpace(s[0]) {
      SplitYieldsWords(s[1..]);
    } else {
      SplitYieldsWords(s[WordLength(s)..]);
    }
  }

  /// A string made only of whitespace has no words.
  lemma {:induction false} SplitBlank(s: string)
    requires forall i :: 0 <= i < |s| ==> IsSpace(s[i])
    ensures Split(s) == []
    decreases |s|
  {
    if s != [] {
      SplitBlank(s[1..]);
    }
  }

  /// A single word splits into itself.
  lemma SplitWord(w: string)
    requires IsWord(w)
    ensures Split(w) == [w]
  {
    WordLengthOfWord(w);
    assert w[..|w|] == w;
    assert w[|w|..] == [];
    assert Split(w) == [w[..|w|]] + Split(w[|w|..]);
  }

  lemma {:induction false} WordLengthOfWord(w: string)
    requires forall i :: 0 <= i < |w| ==> !IsSpace(w[i])
    ensures WordLength(w) == |w|
    decreases |w|
  {
    if w != [] {
      WordLengthOfWord(w[1..]);
    }
  }

  lemma {:induction false} WordLengthAppend(a: string, b: string)
    requires a != [] && !IsSpace(a[0])
    ensures WordLength(a + b) == if WordLength(a) < |a| then WordLength(a) else |a| + WordLength(b)
    decreases |a|
  {
    assert (a + b)[1..] == a[1..] + b;
    if |a| > 1 && !IsSpace(a[1]) {
      WordLengthAppend(a[1..], b);
    } else if |a| == 1 {
      assert a[1..] + b == b;
    }
  }

  /// Splitting distributes over a single separating space.
  lemma {:induction false} SplitSpaceJoin(a: string, b: string)
    ensures Split(a + " " + b) == Split(a) + Split(b)
    decreases |a|
  {
    var s := a + " " + b;
    if a == [] {
      assert s[1..] == b;
    } else if IsSpace(a[0]) {
      assert s[1..] == a[1..] + " " + b;
      SplitSpaceJoin(a[1..], b);
    } else {
      var n := WordLength(a);
      WordLengthAppend(a, " " + b);
      assert a + " " + b == a + (" " + b);
      if n < |a| {
        assert s[..n] == a[..n];
        assert s[n..] == a[n..] + " " + b;
        SplitSpaceJoin(a[n..], b);
      } else {
        assert WordLength(" " + b) == 0;
        assert s[..n] == a;
        assert s[n..] == " " + b;
        assert s[n..][1..] == b;
        assert Split(s[n..]) == Split(b);
        assert Split(s) == [a] + Split(b);
        assert a[n..] == [] && a[..n] == a;
        assert Split(a) == [a[..n]] + Split(a[n..]);
      }
    }
  }

  /// Words joined by single spaces (parseLoad/parseStore rebuild operands this way).
  function Join(words: seq<string>): string {
    if words == [] then ""
    else if |words| == 1 then words[0]
    else words[0] + " " + Join(words[1..])
  }

  /// Appending one more word after a single space.
  lemma {:induction false} JoinSnoc(words: seq<string>, w: string)
    requires words != []
    ensures Join(words + [w]) == Join(words) + " " + w
    decreases |words|
  {
    if |words| == 1 {
      assert words + [w] == [words[0], w];
    } else {
      assert (words + [w])[1..] == words[1..] + [w];
      JoinSnoc(words[1..], w);
    }
  }

  /// A join of words begins with the first word and ends in a non-space.
  lemma {:induction false} JoinEnds(words: seq<string>)
    requires words != [] && forall k :: 0 <= k < |words| ==> IsWord(words[k])
    ensures 0 < |words[0]| <= |Join(words)| && Join(words)[..|words[0]|] == words[0]
    ensures !IsSpace(Join(words)[|Join(words)| - 1])
    decreases |words|
  {
    if |words| > 1 {
      JoinEnds(words[1..]);
    }
  }

  /// Splitting undoes joining.
  lemma {:induction false} SplitJoin(words: seq<string>)
    requires forall k :: 0 <= k < |words| ==> IsWord(words[k])
    ensures Split(Join(words)) == words
    decreases |words|
  {
    if |words| == 1 {
      SplitWord(words[0]);
    } else if |words| > 1 {
      SplitJoin(words[1..]);
      SplitSpaceJoin(words[0], Join(words[1..]));
      SplitWord(words[0]);
    }
  }

  /// An optional sign followed by at least one decimal digit and nothing else
  /// (the `isInteger` helpers of lexer.h and highlevel.h, and the scan in immOrLabel).
  predicate IsInteger(s: string) {
    var start := if |s| > 0 && (s[0] == '-' || s[0] == '+') then 1 else 0;
    start < |s| && forall i :: start <= i < |s| ==> IsDigit(s[i])
  }

  /// "0x" or "0X" followed by at least one more character: the hexadecimal
  /// test of lexer.h `classify` and ir_codegen.h `immOrLabel`.
  predicate HasHexPrefix(s: string) {
    |s| > 2 && s[0] == '0' && (s[1] == 'x' || s[1] == 'X')
  }

  /// A register name as the front ends recognise one (highlevel.h `isReg`):
  /// "xzr", "sp", or 'x' followed by a digit.
  predicate IsReg(s: string) {
    s == "xzr" || s == "sp" || (|s| >= 2 && s[0] == 'x' && IsDigit(s[1]))
  }
}
