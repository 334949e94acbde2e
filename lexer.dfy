/**
 * The tokenizer: one left-to-right scan that turns a line of source text
 * into tokens, always closed by a single end-of-file token. Characters
 * it does not recognise are reported (character and zero-based position)
 * and skipped; the scan never stops early.
 *
 * `ScanStep` describes one iteration of the scanning loop and `Scan` the
 * whole loop; the imperative `Tokenize` is proved to compute exactly
 * `Tokenized`, and the lemmas below state what that result looks like.
 */
module Lexer {
  import opened Wrappers

  datatype TokenType =
    | Null | Number | Identifier | UnaryOperator
    | Let
    | BinaryOperator | Equals | OpenParen | CloseParen | OpenBrace | CloseBrace | Semicolon
    | EOF

  /** A token keeps the raw text it was made from. */
  datatype Token = Token(value: string, kind: TokenType)

  const EndOfFile := Token("EndOfFile", EOF)

  /** What the scanner reports for a character it cannot classify. */
  datatype Diagnostic = Unrecognized(ch: char, position: nat)

  datatype Scanned = Scanned(tokens: seq<Token>, diagnostics: seq<Diagnostic>)

  // ---------------------------------------------------------------------
  // Character classes and the keyword table
  // ---------------------------------------------------------------------

  /**
   * Space, newline and tab: the blanks the scan drops. No blank is a
   * punctuation or operator character, and none is absorbed into an
   * operator, so a blank always ends the token before it.
   */
  function IsSkippable(c: char): (b: bool)
    ensures b ==> !IsPunctuation(c) && !IsOperatorChar(c) && !IsAbsorbed(c)
  {
    c == ' ' || c == '\n' || c == '\t'
  }

  /** The characters `+ - * / % < > =`. */
  predicate IsOperatorChar(c: char) {
    c == '+' || c == '-' || c == '*' || c == '/' || c == '%' || c == '<' || c == '>' || c == '='
  }

  /**
   * A decimal digit, tested on the character code as the source does; no
   * digit is a blank or an operator character.
   */
  function IsInteger(c: char): (b: bool)
    ensures b <==> '0' as int <= c as int <= '9' as int
    ensures b ==> !IsSkippable(c) && !IsOperatorChar(c)
  {
    '0' <= c <= '9'
  }

  /**
   * Letters; the source asks Unicode case mapping, here only ASCII letters
   * count. No letter is a digit, a blank or an operator character, so the
   * order of the scan's branches does not decide between them.
   */
  function IsAlphabetical(c: char): (b: bool)
    ensures b ==> !IsInteger(c) && !IsSkippable(c) && !IsOperatorChar(c)
  {
    'a' <= c <= 'z' || 'A' <= c <= 'Z'
  }

  predicate IsWordChar(c: char) {
    IsAlphabetical(c) || IsInteger(c)
  }

  /** The characters `= < !`, which an operator character absorbs into a two-character operator. */
  predicate IsAbsorbed(c: char) {
    c == '=' || c == '<' || c == '!'
  }

  predicate IsPunctuation(c: char) {
    c == '(' || c == ')' || c == '{' || c == '}' || c == ';'
  }

  function PunctuationKind(c: char): TokenType
    requires IsPunctuation(c)
  {
    match c
    case '(' => OpenParen
    case ')' => CloseParen
    case '{' => OpenBrace
    case '}' => CloseBrace
    case ';' => Semicolon
  }

  /** A character that no branch of the scanning loop accepts. */
  predicate IsUnrecognized(c: char) {
    !IsPunctuation(c) && !IsOperatorChar(c) && !IsWordChar(c) && !IsSkippable(c)
  }

  /** The keyword table, looked up by its own entries only (see Findings in README). */
  function Keyword(ident: string): (k: Option<TokenType>)
    ensures k.Some? <==> ident == "let" || ident == "null"
    ensures k == Some(Let) <==> ident == "let"
    ensures k == Some(Null) <==> ident == "null"
  {
    if ident == "let" then Some(Let)
    else if ident == "null" then Some(Null)
    else None
  }

  function WordKind(ident: string): TokenType {
    match Keyword(ident)
    case Some(k) => k
    case None => Identifier
  }

  /**
   * The keyword lookup as the source writes it: an index into a plain
   * object literal, which also finds the members every object inherits
   * from Object.prototype. The kinds of lookup outcome:
   */
  datatype Lookup = OwnEntry(kind: TokenType) | InheritedMember | Missing

  /** Names of Object.prototype members that consist of letters only. */
  const InheritedNames: set<string> :=
    {"constructor", "hasOwnProperty", "isPrototypeOf", "propertyIsEnumerable",
     "toLocaleString", "toString", "valueOf"}

  function KeywordLookupAsWritten(ident: string): (l: Lookup)
    ensures l.OwnEntry? <==> ident == "let" || ident == "null"
    ensures l == OwnEntry(Let) <==> ident == "let"
    ensures l == OwnEntry(Null) <==> ident == "null"
    ensures l == InheritedMember <==> ident in InheritedNames
  {
    if ident == "let" then OwnEntry(Let)
    else if ident == "null" then OwnEntry(Null)
    else if ident in InheritedNames then InheritedMember
    else Missing
  }

  /**
   * Each of the seven inherited member names is found by the lookup as
   * written, so it is not made an Identifier token; the corrected lookup
   * treats it as an ordinary identifier.
   */
  lemma InheritedNameFoundAsWritten(ident: string)
    requires ident in InheritedNames
    ensures KeywordLookupAsWritten(ident) == InheritedMember
    ensures Keyword(ident) == None && WordKind(ident) == Identifier
  {
  }

  /** Exactly "let" and "null" are keywords; every other word is an identifier. */
  lemma WordKindExactly(ident: string)
    ensures WordKind(ident) == Let <==> ident == "let"
    ensures WordKind(ident) == Null <==> ident == "null"
    ensures WordKind(ident) == Identifier <==> ident != "let" && ident != "null"
  {
  }

  // ---------------------------------------------------------------------
  // One iteration of the scanning loop
  // ---------------------------------------------------------------------

  /** The end of the run of digits that starts at `i`. */
  function DigitRunEnd(src: string, i: nat): (j: nat)
    requires i <= |src|
    ensures i <= j <= |src|
    ensures forall k :: i <= k < j ==> IsInteger(src[k])
    ensures j == |src| || !IsInteger(src[j])
    decreases |src| - i
  {
    if i < |src| && IsInteger(src[i]) then DigitRunEnd(src, i + 1) else i
  }

  /** The end of the run of letters and digits that starts at `i`. */
  function WordRunEnd(src: string, i: nat): (j: nat)
    requires i <= |src|
    ensures i <= j <= |src|
    ensures forall k :: i <= k < j ==> IsWordChar(src[k])
    ensures j == |src| || !IsWordChar(src[j])
    decreases |src| - i
  {
    if i < |src| && IsWordChar(src[i]) then WordRunEnd(src, i + 1) else i
  }

  /** What one iteration emits, and the index it leaves the scan at. */
  datatype Step = Step(tokens: seq<Token>, diagnostics: seq<Diagnostic>, next: int)

  /**
   * One iteration of the scanning loop at index `i`. The operator branch
   * keeps the source's test for a unary minus, which looks at the index
   * AFTER it has been advanced (`i + 1 == 0`) and so never holds; the
   * branch for a lone `=` follows the operator branch, which already
   * takes `=`, and is never reached either.
   */
  function ScanStep(src: string, i: nat): (st: Step)
    requires i < |src|
    ensures i < st.next <= |src|
    ensures |st.tokens| + |st.diagnostics| <= 1
  {
    var c := src[i];
    if IsPunctuation(c) then Step([Token([c], PunctuationKind(c))], [], i + 1)
    else if IsOperatorChar(c) then OperatorStep(src, i)
    else if c == '=' then Step([Token([c], Equals)], [], i + 1)
    else if IsInteger(c) then NumberStep(src, i)
    else if IsAlphabetical(c) then WordStep(src, i)
    else if IsSkippable(c) then Step([], [], i + 1)
    else Step([], [Unrecognized(c, i)], i + 1)
  }

  /** The operator branch: an operator character, possibly absorbing the next character. */
  function OperatorStep(src: string, i: nat): (st: Step)
    requires i < |src|
    ensures i < st.next <= |src|
    ensures st.diagnostics == [] && |st.tokens| == 1 && st.tokens[0].kind == BinaryOperator
    ensures st.next == i + 2 <==> i + 1 < |src| && IsAbsorbed(src[i + 1])
  {
    var c := src[i];
    if c == '-' && i + 1 == 0 then Step([Token([c], UnaryOperator)], [], i + 1)
    else if i + 1 < |src| && IsAbsorbed(src[i + 1]) then
      Step([Token([c] + [src[i + 1]], BinaryOperator)], [], i + 2)
    else
      assert src[i..i + 1] == [c];
      Step([Token([c], BinaryOperator)], [], i + 1)
  }

  /** The digit branch: the whole run of digits is one Number token. */
  function NumberStep(src: string, i: nat): (st: Step)
    requires i < |src| && IsInteger(src[i])
    ensures i < st.next <= |src|
    ensures st.diagnostics == [] && |st.tokens| == 1 && st.tokens[0].kind == Number
  {
    var j := DigitRunEnd(src, i);
    Step([Token(src[i..j], Number)], [], j)
  }

  /** The letter branch: the whole run of letters and digits is one word token. */
  function WordStep(src: string, i: nat): (st: Step)
    requires i < |src| && IsAlphabetical(src[i])
    ensures i < st.next <= |src|
    ensures st.diagnostics == [] && |st.tokens| == 1
    ensures st.tokens[0].kind == Let || st.tokens[0].kind == Null || st.tokens[0].kind == Identifier
    ensures st.tokens[0].kind == Identifier <==> st.tokens[0].value != "let" && st.tokens[0].value != "null"
  {
    var j := WordRunEnd(src, i);
    Step([Token(src[i..j], WordKind(src[i..j]))], [], j)
  }

  /** What one iteration emits: at most one token, whose text is exactly what it consumed, or one report. */
  lemma ScanStepFacts(src: string, i: nat)
    requires i < |src|
    ensures var st := ScanStep(src, i); |st.tokens| <= 1 && |st.diagnostics| <= 1
    ensures var st := ScanStep(src, i); st.tokens != [] ==>
      && st.diagnostics == []
      && st.tokens[0].value == src[i..st.next]
      && st.tokens[0].kind != EOF && st.tokens[0].kind != UnaryOperator && st.tokens[0].kind != Equals
      && (forall k :: i <= k < st.next ==> !IsSkippable(src[k]))
      && !IsUnrecognized(src[i])
      && (forall k :: i < k < st.next && IsUnrecognized(src[k]) ==>
            k == i + 1 && IsOperatorChar(src[i]) && src[k] == '!')
    ensures var st := ScanStep(src, i); st.tokens == [] ==>
      && st.next == i + 1
      && (st.diagnostics == [] <==> IsSkippable(src[i]))
      && (st.diagnostics != [] ==>
            st.diagnostics == [Unrecognized(src[i], i)] && IsUnrecognized(src[i]))
  {
  }

  /** The scanning loop from index `i` to the end of the source. */
  function Scan(src: string, i: nat): Scanned
    requires i <= |src|
    decreases |src| - i
  {
    if i == |src| then Scanned([], [])
    else
      var st := ScanStep(src, i);
      var rest := Scan(src, st.next);
      Scanned(st.tokens + rest.tokens, st.diagnostics + rest.diagnostics)
  }

  lemma ScanUnfold(src: string, i: nat)
    requires i < |src|
    ensures Scan(src, i) ==
      Scanned(ScanStep(src, i).tokens + Scan(src, ScanStep(src, i).next).tokens,
              ScanStep(src, i).diagnostics + Scan(src, ScanStep(src, i).next).diagnostics)
  {
  }

  /** One iteration keeps the loop invariant of `Tokenize`. */
  lemma ScanAdvance(src: string, i: nat, tokens: seq<Token>, diagnostics: seq<Diagnostic>)
    requires i < |src|
    requires Scan(src, 0).tokens == tokens + Scan(src, i).tokens
    requires Scan(src, 0).diagnostics == diagnostics + Scan(src, i).diagnostics
    ensures Scan(src, 0).tokens == (tokens + ScanStep(src, i).tokens) + Scan(src, ScanStep(src, i).next).tokens
    ensures Scan(src, 0).diagnostics ==
      (diagnostics + ScanStep(src, i).diagnostics) + Scan(src, ScanStep(src, i).next).diagnostics
  {
    ScanUnfold(src, i);
    AdvanceCombine(Scan(src, 0), Scan(src, i), ScanStep(src, i), Scan(src, ScanStep(src, i).next), tokens, diagnostics);
  }

  /** Emitted output, one iteration and the rest of the scan, regrouped. */
  lemma AdvanceCombine(whole: Scanned, here: Scanned, st: Step, rest: Scanned,
                       tokens: seq<Token>, diagnostics: seq<Diagnostic>)
    requires whole == Scanned(tokens + here.tokens, diagnostics + here.diagnostics)
    requires here == Scanned(st.tokens + rest.tokens, st.diagnostics + rest.diagnostics)
    ensures whole.tokens == (tokens + st.tokens) + rest.tokens
    ensures whole.diagnostics == (diagnostics + st.diagnostics) + rest.diagnostics
  {
    assert tokens + (st.tokens + rest.tokens) == (tokens + st.tokens) + rest.tokens;
    assert diagnostics + (st.diagnostics + rest.diagnostics) == (diagnostics + st.diagnostics) + rest.diagnostics;
  }

  /** What the tokenizer returns: the scan, closed by the end-of-file token. */
  function Tokenized(src: string): Scanned {
    var s := Scan(src, 0);
    Scanned(s.tokens + [EndOfFile], s.diagnostics)
  }

  /** The loop emits at most one token or report per character it scans. */
  lemma {:induction false} ScanBound(src: string, i: nat)
    requires i <= |src|
    ensures |Scan(src, i).tokens| + |Scan(src, i).diagnostics| <= |src| - i
    decreases |src| - i
  {
    if i < |src| {
      ScanBound(src, ScanStep(src, i).next);
    }
  }

  /** The tokenizer's result: end-of-file last, and at most one other token or report per character. */
  lemma TokenizedBound(src: string)
    ensures var t := Tokenized(src);
      && 1 <= |t.tokens| && t.tokens[|t.tokens| - 1] == EndOfFile
      && |t.tokens| + |t.diagnostics| <= |src| + 1
  {
    ScanBound(src, 0);
  }

  /** Nonempty, closed by the end-of-file token, and no end-of-file kind anywhere before it. */
  predicate WellTerminated(ts: seq<Token>) {
    && |ts| > 0
    && ts[|ts| - 1] == EndOfFile
    && forall k :: 0 <= k < |ts| - 1 ==> ts[k].kind != EOF
  }

  // ---------------------------------------------------------------------
  // The imperative tokenizer
  // ---------------------------------------------------------------------

  /** The inner loop over a run of digits: `num` accumulates the run, `index` stops after it. */
  method ReadDigits(sourceCode: string, start: nat) returns (num: string, index: nat)
    requires start <= |sourceCode|
    ensures index == DigitRunEnd(sourceCode, start)
    ensures num == sourceCode[start..index]
  {
    num, index := "", start;
    while index < |sourceCode| && IsInteger(sourceCode[index])
      invariant start <= index <= |sourceCode|
      invariant num == sourceCode[start..index]
      invariant DigitRunEnd(sourceCode, index) == DigitRunEnd(sourceCode, start)
      decreases |sourceCode| - index
    {
      num := num + [sourceCode[index]];
      index := index + 1;
    }
  }

  /** The inner loop over a word: letters and digits, as long as they last. */
  method ReadWord(sourceCode: string, start: nat) returns (ident: string, index: nat)
    requires start <= |sourceCode|
    ensures index == WordRunEnd(sourceCode, start)
    ensures ident == sourceCode[start..index]
  {
    ident, index := "", start;
    while index < |sourceCode| && IsWordChar(sourceCode[index])
      invariant start <= index <= |sourceCode|
      invariant ident == sourceCode[start..index]
      invariant WordRunEnd(sourceCode, index) == WordRunEnd(sourceCode, start)
      decreases |sourceCode| - index
    {
      ident := ident + [sourceCode[index]];
      index := index + 1;
    }
  }

  /**
   * The scanning loop of the source: a mutable index, one character of
   * lookahead, and inner loops that accumulate digit and word runs.
   * `diagnostics` stands for the messages written to the error console.
   */
  method Tokenize(sourceCode: string) returns (tokens: seq<Token>, diagnostics: seq<Diagnostic>)
    ensures tokens == Tokenized(sourceCode).tokens
    ensures diagnostics == Tokenized(sourceCode).diagnostics
    ensures WellTerminated(tokens)
  {
    tokens, diagnostics := [], [];
    var index := 0;
    while index < |sourceCode|
      invariant 0 <= index <= |sourceCode|
      invariant Scan(sourceCode, 0).tokens == tokens + Scan(sourceCode, index).tokens
      invariant Scan(sourceCode, 0).diagnostics == diagnostics + Scan(sourceCode, index).diagnostics
      decreases |sourceCode| - index
    {
      ghost var st, tokens0, diagnostics0, before := ScanStep(sourceCode, index), tokens, diagnostics, index;
      var c := sourceCode[index];
      if c == '(' {
        tokens := tokens + [Token([c], OpenParen)];
        index := index + 1;
      } else if c == ')' {
        tokens := tokens + [Token([c], CloseParen)];
        index := index + 1;
      } else if c == '{' {
        tokens := tokens + [Token([c], OpenBrace)];
        index := index + 1;
      } else if c == '}' {
        tokens := tokens + [Token([c], CloseBrace)];
        index := index + 1;
      } else if c == ';' {
        tokens := tokens + [Token([c], Semicolon)];
        index := index + 1;
      } else if IsOperatorChar(c) {
        var op := [c];
        index := index + 1;
        if op == "-" && index == 0 {
          tokens := tokens + [Token(op, UnaryOperator)];
        } else if index < |sourceCode| && IsAbsorbed(sourceCode[index]) {
          op := op + [sourceCode[index]];
          index := index + 1;
          tokens := tokens + [Token(op, BinaryOperator)];
        } else {
          tokens := tokens + [Token(op, BinaryOperator)];
        }
      } else if c == '=' {
        tokens := tokens + [Token([c], Equals)];
        index := index + 1;
      } else if IsInteger(c) {
        var num;
        num, index := ReadDigits(sourceCode, index);
        tokens := tokens + [Token(num, Number)];
      } else if IsAlphabetical(c) {
        var ident;
        ident, index := ReadWord(sourceCode, index);
        tokens := tokens + [Token(ident, WordKind(ident))];
      } else if IsSkippable(c) {
        index := index + 1;
      } else {
        diagnostics := diagnostics + [Unrecognized(c, index)];
        index := index + 1;
      }
      assert tokens == tokens0 + st.tokens && diagnostics == diagnostics0 + st.diagnostics && index == st.next;
      ScanAdvance(sourceCode, before, tokens0, diagnostics0);
    }
    tokens := tokens + [EndOfFile];
    TokenizedWellTerminated(sourceCode);
  }

  // ---------------------------------------------------------------------
  // Properties of the scan
  // ---------------------------------------------------------------------

  /**
   * The scan itself emits no end-of-file, unary-operator or `=` token, and
   * no empty token; no token text starts with `!`.
   */
  lemma {:induction false} ScanKinds(src: string, i: nat)
    requires i <= |src|
    ensures forall k :: 0 <= k < |Scan(src, i).tokens| ==>
      Scan(src, i).tokens[k].kind != EOF && Scan(src, i).tokens[k].kind != UnaryOperator
      && Scan(src, i).tokens[k].kind != Equals && Scan(src, i).tokens[k].value != []
      && Scan(src, i).tokens[k].value[0] != '!'
    decreases |src| - i
  {
    if i < |src| {
      var st := ScanStep(src, i);
      ScanStepFacts(src, i);
      ScanKinds(src, st.next);
    }
  }

  /**
   * The tokenizer's output ends with exactly one end-of-file token, and it
   * never contains a unary-operator or `=` token.
   */
  lemma TokenizedWellTerminated(src: string)
    ensures WellTerminated(Tokenized(src).tokens)
    ensures forall k :: 0 <= k < |Tokenized(src).tokens| ==>
      Tokenized(src).tokens[k].kind != UnaryOperator && Tokenized(src).tokens[k].kind != Equals
  {
    ScanKinds(src, 0);
  }

  /** No token has the text `!=`, so the comparison loop's `!=` case is never met. */
  lemma NotEqualNeverLexed(src: string)
    ensures forall k :: 0 <= k < |Tokenized(src).tokens| ==> Tokenized(src).tokens[k].value != "!="
  {
    ScanKinds(src, 0);
    var ts := Tokenized(src).tokens;
    forall k | 0 <= k < |ts| ensures ts[k].value != "!=" {
      if k < |ts| - 1 {
        assert ts[k] == Scan(src, 0).tokens[k];
      }
    }
  }

  lemma TokenizeEmpty()
    ensures Tokenized("") == Scanned([EndOfFile], [])
  {
  }

  /** Diagnostics moved right by `by` positions. */
  function Shifted(ds: seq<Diagnostic>, offset: nat): (r: seq<Diagnostic>)
    ensures |r| == |ds|
  {
    seq(|ds|, k requires 0 <= k < |ds| => Unrecognized(ds[k].ch, ds[k].position + offset))
  }

  lemma {:induction false} DigitRunEndShift(p: string, s: string, i: nat)
    requires i <= |s|
    ensures DigitRunEnd(p + s, |p| + i) == |p| + DigitRunEnd(s, i)
    decreases |s| - i
  {
    if i < |s| {
      assert (p + s)[|p| + i] == s[i];
      if IsInteger(s[i]) {
        DigitRunEndShift(p, s, i + 1);
      }
    }
  }

  lemma {:induction false} WordRunEndShift(p: string, s: string, i: nat)
    requires i <= |s|
    ensures WordRunEnd(p + s, |p| + i) == |p| + WordRunEnd(s, i)
    decreases |s| - i
  {
    if i < |s| {
      assert (p + s)[|p| + i] == s[i];
      if IsWordChar(s[i]) {
        WordRunEndShift(p, s, i + 1);
      }
    }
  }

  /** A run of digits that stops at `j` has its end at `j`. */
  lemma {:induction false} DigitRunEndAt(src: string, i: nat, j: nat)
    requires i <= j <= |src|
    requires forall k :: i <= k < j ==> IsInteger(src[k])
    requires j == |src| || !IsInteger(src[j])
    ensures DigitRunEnd(src, i) == j
    decreases j - i
  {
    if i < j {
      DigitRunEndAt(src, i + 1, j);
    }
  }

  /** A run of letters and digits that stops at `j` has its end at `j`. */
  lemma {:induction false} WordRunEndAt(src: string, i: nat, j: nat)
    requires i <= j <= |src|
    requires forall k :: i <= k < j ==> IsWordChar(src[k])
    requires j == |src| || !IsWordChar(src[j])
    ensures WordRunEnd(src, i) == j
    decreases j - i
  {
    if i < j {
      WordRunEndAt(src, i + 1, j);
    }
  }

  lemma OperatorStepShift(p: string, s: string, i: nat)
    requires i < |s|
    ensures OperatorStep(s, i).diagnostics == []
    ensures OperatorStep(p + s, |p| + i) ==
      Step(OperatorStep(s, i).tokens, [], |p| + OperatorStep(s, i).next)
  {
    var src := p + s;
    assert src[|p| + i] == s[i];
    assert |p| + i + 1 < |src| ==> src[|p| + i + 1] == s[i + 1];
  }

  lemma NumberStepShift(p: string, s: string, i: nat)
    requires i < |s| && IsInteger(s[i])
    ensures (p + s)[|p| + i] == s[i]
    ensures NumberStep(s, i).diagnostics == []
    ensures NumberStep(p + s, |p| + i) == Step(NumberStep(s, i).tokens, [], |p| + NumberStep(s, i).next)
  {
    var src := p + s;
    assert src[|p| + i] == s[i];
    DigitRunEndShift(p, s, i);
    var j := DigitRunEnd(s, i);
    assert src[|p| + i..|p| + j] == s[i..j];
  }

  lemma WordStepShift(p: string, s: string, i: nat)
    requires i < |s| && IsAlphabetical(s[i])
    ensures (p + s)[|p| + i] == s[i]
    ensures WordStep(s, i).diagnostics == []
    ensures WordStep(p + s, |p| + i) == Step(WordStep(s, i).tokens, [], |p| + WordStep(s, i).next)
  {
    var src := p + s;
    assert src[|p| + i] == s[i];
    WordRunEndShift(p, s, i);
    var j := WordRunEnd(s, i);
    assert src[|p| + i..|p| + j] == s[i..j];
  }

  /** One iteration depends only on the text from its index on, not on what precedes it. */
  predicate StepShifts(p: string, s: string, i: nat)
    requires i < |s|
  {
    ScanStep(p + s, |p| + i) ==
      Step(ScanStep(s, i).tokens, Shifted(ScanStep(s, i).diagnostics, |p|), |p| + ScanStep(s, i).next)
  }

  lemma PunctuationStepShifts(p: string, s: string, i: nat)
    requires i < |s| && IsPunctuation(s[i])
    ensures StepShifts(p, s, i)
  {
    assert (p + s)[|p| + i] == s[i];
    ShiftedShort(Unrecognized(s[i], i), |p|);
  }

  lemma OperatorStepShifts(p: string, s: string, i: nat)
    requires i < |s| && IsOperatorChar(s[i])
    ensures StepShifts(p, s, i)
  {
    assert (p + s)[|p| + i] == s[i];
    ShiftedShort(Unrecognized(s[i], i), |p|);
    OperatorStepShift(p, s, i);
  }

  lemma NumberStepShifts(p: string, s: string, i: nat)
    requires i < |s| && IsInteger(s[i])
    ensures StepShifts(p, s, i)
  {
    assert (p + s)[|p| + i] == s[i];
    ShiftedShort(Unrecognized(s[i], i), |p|);
    NumberStepShift(p, s, i);
  }

  lemma WordStepShifts(p: string, s: string, i: nat)
    requires i < |s| && IsAlphabetical(s[i])
    ensures StepShifts(p, s, i)
  {
    assert (p + s)[|p| + i] == s[i];
    ShiftedShort(Unrecognized(s[i], i), |p|);
    WordStepShift(p, s, i);
  }

  lemma BlankOrUnrecognizedStepShifts(p: string, s: string, i: nat)
    requires i < |s| && (IsSkippable(s[i]) || IsUnrecognized(s[i]))
    ensures StepShifts(p, s, i)
  {
    assert (p + s)[|p| + i] == s[i];
    ShiftedShort(Unrecognized(s[i], i), |p|);
  }

  lemma ScanStepShift(p: string, s: string, i: nat)
    requires i < |s|
    ensures StepShifts(p, s, i)
  {
    var c := s[i];
    if IsPunctuation(c) {
      PunctuationStepShifts(p, s, i);
    } else if IsOperatorChar(c) {
      OperatorStepShifts(p, s, i);
    } else if IsInteger(c) {
      NumberStepShifts(p, s, i);
    } else if IsAlphabetical(c) {
      WordStepShifts(p, s, i);
    } else {
      BlankOrUnrecognizedStepShifts(p, s, i);
    }
  }

  lemma ShiftedShort(d: Diagnostic, offset: nat)
    ensures Shifted([], offset) == []
    ensures Shifted([d], offset) == [Unrecognized(d.ch, d.position + offset)]
  {
  }

  lemma ShiftedAppend(a: seq<Diagnostic>, b: seq<Diagnostic>, offset: nat)
    ensures Shifted(a + b, offset) == Shifted(a, offset) + Shifted(b, offset)
  {
    assert forall k :: 0 <= k < |a + b| ==> Shifted(a + b, offset)[k] == (Shifted(a, offset) + Shifted(b, offset))[k];
  }

  /** Scanning the tail of a longer text gives the tail's tokens, with positions moved right. */
  lemma {:induction false} ScanShift(p: string, s: string, i: nat)
    requires i <= |s|
    ensures Scan(p + s, |p| + i) == Scanned(Scan(s, i).tokens, Shifted(Scan(s, i).diagnostics, |p|))
    decreases |s| - i
  {
    if i < |s| {
      var st := ScanStep(s, i);
      ScanShiftUnfold(p, s, i);
      ScanShift(p, s, st.next);
      ShiftedAppend(st.diagnostics, Scan(s, st.next).diagnostics, |p|);
      ShiftCombine(ScanStep(p + s, |p| + i), st, Scan(p + s, |p| + i), Scan(p + s, |p| + st.next),
                   Scan(s, i), Scan(s, st.next), |p|);
    } else {
      assert Shifted([], |p|) == [];
    }
  }

  /** The first iteration of both scans in `ScanShift`, unfolded. */
  lemma ScanShiftUnfold(p: string, s: string, i: nat)
    requires i < |s|
    ensures ScanStep(p + s, |p| + i) ==
      Step(ScanStep(s, i).tokens, Shifted(ScanStep(s, i).diagnostics, |p|), |p| + ScanStep(s, i).next)
    ensures Scan(p + s, |p| + i) ==
      Scanned(ScanStep(p + s, |p| + i).tokens + Scan(p + s, |p| + ScanStep(s, i).next).tokens,
              ScanStep(p + s, |p| + i).diagnostics + Scan(p + s, |p| + ScanStep(s, i).next).diagnostics)
    ensures Scan(s, i) ==
      Scanned(ScanStep(s, i).tokens + Scan(s, ScanStep(s, i).next).tokens,
              ScanStep(s, i).diagnostics + Scan(s, ScanStep(s, i).next).diagnostics)
  {
    ScanStepShift(p, s, i);
    ScanUnfold(s, i);
    ScanUnfold(p + s, |p| + i);
  }

  /** Assembles one shifted iteration and the shifted rest into the shifted scan. */
  lemma ShiftCombine(here: Step, there: Step, whole: Scanned, wholeRest: Scanned,
                     own: Scanned, ownRest: Scanned, offset: nat)
    requires here == Step(there.tokens, Shifted(there.diagnostics, offset), offset + there.next)
    requires whole == Scanned(here.tokens + wholeRest.tokens, here.diagnostics + wholeRest.diagnostics)
    requires own == Scanned(there.tokens + ownRest.tokens, there.diagnostics + ownRest.diagnostics)
    requires wholeRest == Scanned(ownRest.tokens, Shifted(ownRest.diagnostics, offset))
    requires Shifted(there.diagnostics + ownRest.diagnostics, offset) ==
      Shifted(there.diagnostics, offset) + Shifted(ownRest.diagnostics, offset)
    ensures whole == Scanned(own.tokens, Shifted(own.diagnostics, offset))
  {
  }

  lemma ScanFirstStep(p: string, s: string)
    requires p != [] && ScanStep(p + s, 0).next == |p|
    ensures Scan(p + s, 0) == Scanned(ScanStep(p + s, 0).tokens + Scan(p + s, |p|).tokens,
                                      ScanStep(p + s, 0).diagnostics + Scan(p + s, |p|).diagnostics)
  {
    ScanUnfold(p + s, 0);
  }

  lemma ScanShiftFromStart(p: string, s: string)
    ensures Scan(p + s, |p|) == Scanned(Scan(s, 0).tokens, Shifted(Scan(s, 0).diagnostics, |p|))
  {
    ScanShift(p, s, 0);
  }

  /** Closing the combined scan by end-of-file is closing the tail's scan. */
  lemma CloseCons(st: Step, whole: Scanned, tail: Scanned, own: Scanned, offset: nat)
    requires whole == Scanned(st.tokens + tail.tokens, st.diagnostics + tail.diagnostics)
    requires tail == Scanned(own.tokens, Shifted(own.diagnostics, offset))
    ensures Scanned(whole.tokens + [EndOfFile], whole.diagnostics) ==
      Scanned(st.tokens + (own.tokens + [EndOfFile]), st.diagnostics + Shifted(own.diagnostics, offset))
  {
    assert (st.tokens + own.tokens) + [EndOfFile] == st.tokens + (own.tokens + [EndOfFile]);
  }

  /** When the first iteration consumes exactly `p`, the rest of the output is that of `s`. */
  lemma TokenizeCons(p: string, s: string)
    requires p != [] && ScanStep(p + s, 0).next == |p|
    ensures Tokenized(p + s) ==
      Scanned(ScanStep(p + s, 0).tokens + Tokenized(s).tokens,
              ScanStep(p + s, 0).diagnostics + Shifted(Tokenized(s).diagnostics, |p|))
  {
    ScanFirstStep(p, s);
    ScanShiftFromStart(p, s);
    CloseCons(ScanStep(p + s, 0), Scan(p + s, 0), Scan(p + s, |p|), Scan(s, 0), |p|);
  }

  /** Each of `( ) { } ;` is one token of its own kind whose text is that character. */
  lemma TokenizePunctuation(c: char, s: string)
    requires IsPunctuation(c)
    ensures Tokenized([c] + s).tokens == [Token([c], PunctuationKind(c))] + Tokenized(s).tokens
    ensures Tokenized([c] + s).diagnostics == Shifted(Tokenized(s).diagnostics, 1)
  {
    assert ([c] + s)[0] == c;
    TokenizeCons([c], s);
  }

  /** Space, tab and newline produce no token and no diagnostic. */
  lemma TokenizeSkippable(c: char, s: string)
    requires IsSkippable(c)
    ensures Tokenized([c] + s).tokens == Tokenized(s).tokens
    ensures Tokenized([c] + s).diagnostics == Shifted(Tokenized(s).diagnostics, 1)
  {
    assert ([c] + s)[0] == c;
    TokenizeCons([c], s);
  }

  /** Any other unrecognised character produces no token; it is reported at its position and the scan goes on. */
  lemma TokenizeUnrecognized(c: char, s: string)
    requires IsUnrecognized(c)
    ensures Tokenized([c] + s).tokens == Tokenized(s).tokens
    ensures Tokenized([c] + s).diagnostics == [Unrecognized(c, 0)] + Shifted(Tokenized(s).diagnostics, 1)
  {
    assert ([c] + s)[0] == c;
    TokenizeCons([c], s);
  }

  /** An operator character not followed by `= < !` is a one-character binary operator. */
  lemma TokenizeOperator(c: char, s: string)
    requires IsOperatorChar(c)
    requires s == [] || !IsAbsorbed(s[0])
    ensures Tokenized([c] + s).tokens == [Token([c], BinaryOperator)] + Tokenized(s).tokens
    ensures Tokenized([c] + s).diagnostics == Shifted(Tokenized(s).diagnostics, 1)
  {
    var src := [c] + s;
    assert src[0] == c;
    assert 1 < |src| ==> src[1] == s[0];
    assert ScanStep(src, 0) == Step([Token([c], BinaryOperator)], [], 1);
    TokenizeCons([c], s);
  }

  /** An operator character followed by one of `= < !` absorbs it into a two-character binary operator. */
  lemma TokenizeTwoCharOperator(c: char, d: char, s: string)
    requires IsOperatorChar(c) && IsAbsorbed(d)
    ensures Tokenized([c, d] + s).tokens == [Token([c, d], BinaryOperator)] + Tokenized(s).tokens
    ensures Tokenized([c, d] + s).diagnostics == Shifted(Tokenized(s).diagnostics, 2)
  {
    var src := [c, d] + s;
    assert src[0] == c && src[1] == d;
    assert [c] + [d] == [c, d];
    assert ScanStep(src, 0) == Step([Token([c, d], BinaryOperator)], [], 2);
    TokenizeCons([c, d], s);
  }

  /** The first iteration over a maximal run of digits consumes exactly that run. */
  lemma NumberFirstStep(digits: string, s: string)
    requires digits != [] && forall k :: 0 <= k < |digits| ==> IsInteger(digits[k])
    requires s == [] || !IsInteger(s[0])
    ensures ScanStep(digits + s, 0) == Step([Token(digits, Number)], [], |digits|)
  {
    var src := digits + s;
    assert src[0] == digits[0];
    assert !IsPunctuation(src[0]) && !IsOperatorChar(src[0]) && src[0] != '=';
    assert |digits| < |src| ==> src[|digits|] == s[0];
    DigitRunEndAt(src, 0, |digits|);
    assert src[0..|digits|] == digits;
  }

  /** A maximal run of digits is one Number token whose text is the run. */
  lemma TokenizeNumber(digits: string, s: string)
    requires digits != [] && forall k :: 0 <= k < |digits| ==> IsInteger(digits[k])
    requires s == [] || !IsInteger(s[0])
    ensures Tokenized(digits + s).tokens == [Token(digits, Number)] + Tokenized(s).tokens
    ensures Tokenized(digits + s).diagnostics == Shifted(Tokenized(s).diagnostics, |digits|)
  {
    NumberFirstStep(digits, s);
    TokenizeCons(digits, s);
  }

  /** The first iteration over a maximal word consumes exactly that word. */
  lemma WordFirstStep(word: string, s: string)
    requires word != [] && IsAlphabetical(word[0])
    requires forall k :: 0 <= k < |word| ==> IsWordChar(word[k])
    requires s == [] || !IsWordChar(s[0])
    ensures ScanStep(word + s, 0) == Step([Token(word, WordKind(word))], [], |word|)
  {
    var src := word + s;
    assert src[0] == word[0];
    assert !IsPunctuation(src[0]) && !IsOperatorChar(src[0]) && src[0] != '=' && !IsInteger(src[0]);
    assert |word| < |src| ==> src[|word|] == s[0];
    WordRunEndAt(src, 0, |word|);
    assert src[0..|word|] == word;
  }

  /**
   * A word (a letter, then letters and digits, as long as possible) is one
   * token of the word's kind (Let for exactly "let", Null for exactly
   * "null", else Identifier, by WordKindExactly).
   */
  lemma TokenizeWord(word: string, s: string)
    requires word != [] && IsAlphabetical(word[0])
    requires forall k :: 0 <= k < |word| ==> IsWordChar(word[k])
    requires s == [] || !IsWordChar(s[0])
    ensures Tokenized(word + s).tokens == [Token(word, WordKind(word))] + Tokenized(s).tokens
    ensures Tokenized(word + s).diagnostics == Shifted(Tokenized(s).diagnostics, |word|)
  {
    WordFirstStep(word, s);
    TokenizeCons(word, s);
  }

  // ---------------------------------------------------------------------
  // Nothing is lost but blanks and reported characters
  // ---------------------------------------------------------------------

  /** The token texts, concatenated in order. */
  function Values(ts: seq<Token>): string {
    if ts == [] then [] else ts[0].value + Values(ts[1..])
  }

  function Positions(ds: seq<Diagnostic>): set<int> {
    set d | d in ds :: d.position as int
  }

  /** The characters of `src` from `i` on whose positions are not in `drop`. */
  function Erase(src: string, i: nat, drop: set<int>): string
    requires i <= |src|
    decreases |src| - i
  {
    if i == |src| then [] else (if i in drop then [] else [src[i]]) + Erase(src, i + 1, drop)
  }

  /** The positions the scan drops: blanks, and the characters it reports. */
  function Dropped(src: string): set<int> {
    (set k | 0 <= k < |src| && IsSkippable(src[k])) + Positions(Scan(src, 0).diagnostics)
  }

  /** Every diagnostic names an unrecognised character at its true position; positions rise strictly. */
  lemma {:induction false} DiagnosticsInRange(src: string, i: nat)
    requires i <= |src|
    ensures forall k :: 0 <= k < |Scan(src, i).diagnostics| ==>
      var d := Scan(src, i).diagnostics[k];
      i <= d.position < |src| && src[d.position] == d.ch && IsUnrecognized(d.ch)
    ensures forall k, l :: 0 <= k < l < |Scan(src, i).diagnostics| ==>
      Scan(src, i).diagnostics[k].position < Scan(src, i).diagnostics[l].position
    decreases |src| - i
  {
    if i < |src| {
      var st := ScanStep(src, i);
      ScanStepFacts(src, i);
      ScanUnfold(src, i);
      DiagnosticsInRange(src, st.next);
      var a: seq<Diagnostic>, b: seq<Diagnostic> := st.diagnostics, Scan(src, st.next).diagnostics;
      assert Scan(src, i).diagnostics == a + b;
      forall k | 0 <= k < |a + b|
        ensures i <= (a + b)[k].position < |src| && src[(a + b)[k].position] == (a + b)[k].ch
        ensures IsUnrecognized((a + b)[k].ch)
      {
        if k >= |a| {
          assert (a + b)[k] == b[k - |a|];
        }
      }
      forall k, l | 0 <= k < l < |a + b|
        ensures (a + b)[k].position < (a + b)[l].position
      {
        if k >= |a| {
          assert (a + b)[k] == b[k - |a|] && (a + b)[l] == b[l - |a|];
        } else {
          assert (a + b)[l] == b[l - |a|];
        }
      }
    }
  }

  lemma {:induction false} EraseKeeps(src: string, i: nat, j: nat, drop: set<int>)
    requires i <= j <= |src|
    requires forall k :: i <= k < j ==> k !in drop
    ensures Erase(src, i, drop) == src[i..j] + Erase(src, j, drop)
    decreases j - i
  {
    if i < j {
      EraseKeeps(src, i + 1, j, drop);
      assert Erase(src, i, drop) == [src[i]] + Erase(src, i + 1, drop);
      assert src[i..j] == [src[i]] + src[i + 1..j];
      assert [src[i]] + (src[i + 1..j] + Erase(src, j, drop)) == ([src[i]] + src[i + 1..j]) + Erase(src, j, drop);
    } else {
      assert src[i..j] == [];
    }
  }

  lemma {:induction false} ValuesAppend(a: seq<Token>, b: seq<Token>)
    ensures Values(a + b) == Values(a) + Values(b)
  {
    if a == [] {
      assert a + b == b;
    } else {
      assert (a + b)[1..] == a[1..] + b;
      ValuesAppend(a[1..], b);
    }
  }

  lemma PositionsAppend(a: seq<Diagnostic>, b: seq<Diagnostic>)
    ensures Positions(a + b) == Positions(a) + Positions(b)
  {
  }

  lemma {:induction false} ScanReassemblesFrom(src: string, i: nat, drop: set<int>)
    requires i <= |src|
    requires forall k :: i <= k < |src| ==>
      (k in drop <==> IsSkippable(src[k]) || k in Positions(Scan(src, i).diagnostics))
    ensures Values(Scan(src, i).tokens) == Erase(src, i, drop)
    decreases |src| - i
  {
    if i < |src| {
      var st := ScanStep(src, i);
      var rest := Scan(src, st.next);
      var whole := Scan(src, i);
      ScanStepFacts(src, i);
      ScanUnfold(src, i);
      assert whole.tokens == st.tokens + rest.tokens;
      assert whole.diagnostics == st.diagnostics + rest.diagnostics;
      DiagnosticsInRange(src, st.next);
      PositionsAppend(st.diagnostics, rest.diagnostics);
      forall k | st.next <= k < |src|
        ensures k in drop <==> IsSkippable(src[k]) || k in Positions(rest.diagnostics)
      {
        assert k !in Positions(st.diagnostics);
      }
      ScanReassemblesFrom(src, st.next, drop);
      ValuesAppend(st.tokens, rest.tokens);
      if st.tokens != [] {
        forall k | i <= k < st.next ensures k !in drop {
          assert k !in Positions(rest.diagnostics);
        }
        EraseKeeps(src, i, st.next, drop);
        assert st.tokens == [st.tokens[0]];
        assert Values(st.tokens) == src[i..st.next];
      } else {
        assert i in drop;
        assert Erase(src, i, drop) == Erase(src, i + 1, drop);
      }
    }
  }

  /**
   * The texts of the tokens before end-of-file, concatenated in order, are
   * the source with its blanks and its reported characters removed.
   */
  lemma ScanReassembles(src: string)
    ensures Values(Scan(src, 0).tokens) == Erase(src, 0, Dropped(src))
  {
    ScanReassemblesFrom(src, 0, Dropped(src));
  }

  /**
   * Every unrecognised character is reported, except a `!` that directly
   * follows an operator character, which absorbs it.
   */
  lemma {:induction false} UnrecognizedReportedFrom(src: string, i: nat, k: nat)
    requires i <= k < |src| && IsUnrecognized(src[k])
    ensures k in Positions(Scan(src, i).diagnostics) || (src[k] == '!' && i < k && IsOperatorChar(src[k - 1]))
    decreases |src| - i
  {
    var st := ScanStep(src, i);
    var rest := Scan(src, st.next);
    ScanStepFacts(src, i);
    ScanUnfold(src, i);
    PositionsAppend(st.diagnostics, rest.diagnostics);
    if k >= st.next {
      UnrecognizedReportedFrom(src, st.next, k);
    } else if st.tokens == [] {
      assert k in Positions(st.diagnostics);
    }
  }

  lemma UnrecognizedReported(src: string, k: nat)
    requires k < |src| && IsUnrecognized(src[k])
    requires k !in Positions(Tokenized(src).diagnostics)
    ensures src[k] == '!' && 0 < k && IsOperatorChar(src[k - 1])
  {
    UnrecognizedReportedFrom(src, 0, k);
  }
}
