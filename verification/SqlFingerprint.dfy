/** The SQL normaliser behind the audit fingerprint: block comments, quoted literals, line
    comments, white space and case, in that order, each pass over the whole text. */
module SqlFingerprint {

  // ---------- characters ----------

  /** Python's str.isspace, which strip and the regular expression \s share. */
  predicate IsSpace(c: char) {
    var n := c as int;
    || 9 <= n <= 13 || 28 <= n <= 32 || n == 0x85 || n == 0xA0 || n == 0x1680
    || 0x2000 <= n <= 0x200A || n == 0x2028 || n == 0x2029 || n == 0x202F || n == 0x205F || n == 0x3000
  }

  /** The line boundaries of str.splitlines; all of them are white space. */
  predicate IsLineBreak(c: char) {
    var n := c as int;
    10 <= n <= 13 || 28 <= n <= 30 || n == 0x85 || n == 0x2028 || n == 0x2029
  }

  predicate IsQuote(c: char) {
    c == '\'' || c == '"'
  }

  function LowerChar(c: char): char {
    if 'A' <= c <= 'Z' then (c as int + 32) as char else c
  }

  // ---------- the passes ----------

  function StripLeft(s: string): (r: string)
    ensures |r| <= |s| && r == s[|s| - |r|..]
    ensures r != "" ==> !IsSpace(r[0])
  {
    if s != "" && IsSpace(s[0]) then StripLeft(s[1..]) else s
  }

  function StripRight(s: string): (r: string)
    ensures |r| <= |s| && r == s[..|r|]
    ensures r != "" ==> !IsSpace(r[|r| - 1])
    decreases |s|
  {
    if s != "" && IsSpace(s[|s| - 1]) then StripRight(s[..|s| - 1]) else s
  }

  function Strip(s: string): string {
    StripRight(StripLeft(s))
  }

  predicate At(s: string, i: int, a: char, b: char) {
    0 <= i < |s| - 1 && s[i] == a && s[i + 1] == b
  }

  /** Where the pair ab first occurs at or after i; |s| when it does not. */
  function FindPair(s: string, i: nat, a: char, b: char): (j: nat)
    requires i <= |s|
    ensures i <= j <= |s|
    ensures j < |s| ==> At(s, j, a, b)
    ensures forall k :: i <= k < j ==> !At(s, k, a, b)
    decreases |s| - i
  {
    if i == |s| then i else if At(s, i, a, b) then i else FindPair(s, i + 1, a, b)
  }

  /** The block comment substitution: leftmost, shortest, not overlapping, over line ends. */
  function DropBlockComments(s: string): string
    decreases |s|
  {
    if s == "" then ""
    else if At(s, 0, '/', '*') && FindPair(s, 2, '*', '/') < |s| then
      " " + DropBlockComments(s[FindPair(s, 2, '*', '/') + 2..])
    else [s[0]] + DropBlockComments(s[1..])
  }

  /** The index after the literal whose opening quote q is before i; a doubled quote stays
      inside, an unterminated literal runs to the end. */
  function LiteralEnd(s: string, q: char, i: nat): (j: nat)
    requires i <= |s|
    ensures i <= j <= |s|
    decreases |s| - i
  {
    if i == |s| then i
    else if s[i] != q then LiteralEnd(s, q, i + 1)
    else if i + 1 < |s| && s[i + 1] == q then LiteralEnd(s, q, i + 2)
    else i + 1
  }

  function ReplaceLiterals(s: string): string
    decreases |s|
  {
    if s == "" then ""
    else if IsQuote(s[0]) then " ? " + ReplaceLiterals(s[LiteralEnd(s, s[0], 1)..])
    else [s[0]] + ReplaceLiterals(s[1..])
  }

  /** The scanner as written: one index over the text, an inner loop per quote character. */
  method ReplaceQuotedLiterals(s: string) returns (out: string)
    ensures out == ReplaceLiterals(s)
  {
    out := "";
    var i, n := 0, |s|;
    assert s[0..] == s;
    while i < n
      invariant 0 <= i <= n
      invariant out + ReplaceLiterals(s[i..]) == ReplaceLiterals(s)
    {
      var ch := s[i];
      if IsQuote(ch) {
        ghost var before, start, end := out, i, LiteralEnd(s, ch, i + 1);
        out := out + " ? ";
        i := i + 1;
        while i < n
          invariant start < i <= n
          invariant LiteralEnd(s, ch, i) == end
        {
          if s[i] == ch {
            if i + 1 < n && s[i + 1] == ch {
              i := i + 2;
              continue;
            }
            i := i + 1;
            assert i == end;
            break;
          }
          i := i + 1;
        }
        assert i == end;
        LiteralStep(s, start);
        TextAssociates(before, " ? ", ReplaceLiterals(s[i..]));
      } else {
        PlainStep(s, i);
        TextAssociates(out, [ch], ReplaceLiterals(s[i + 1..]));
        out := out + [ch];
        i := i + 1;
      }
    }
    assert s[n..] == "";
  }

  lemma LiteralStep(s: string, i: nat)
    requires i < |s| && IsQuote(s[i])
    ensures ReplaceLiterals(s[i..]) == " ? " + ReplaceLiterals(s[LiteralEnd(s, s[i], i + 1)..])
  {
    LiteralEndShift(s, i, s[i], 1);
    var end := LiteralEnd(s, s[i], i + 1);
    assert s[i..][end - i..] == s[end..];
  }

  lemma PlainStep(s: string, i: nat)
    requires i < |s| && !IsQuote(s[i])
    ensures ReplaceLiterals(s[i..]) == [s[i]] + ReplaceLiterals(s[i + 1..])
  {
    assert s[i..][1..] == s[i + 1..];
  }

  lemma LiteralEndShift(s: string, start: nat, q: char, i: nat)
    requires start + i <= |s|
    ensures LiteralEnd(s[start..], q, i) + start == LiteralEnd(s, q, start + i)
    decreases |s| - i
  {
    if start + i < |s| {
      LiteralEndShift(s, start, q, i + 1);
      if start + i + 1 < |s| { LiteralEndShift(s, start, q, i + 2); }
    }
  }

  function FirstBreak(s: string): (b: nat)
    ensures b <= |s| && (b < |s| ==> IsLineBreak(s[b]))
    ensures forall i :: 0 <= i < b ==> !IsLineBreak(s[i])
  {
    if s == "" || IsLineBreak(s[0]) then 0 else 1 + FirstBreak(s[1..])
  }

  /** What splitlines leaves after the first line; CR LF is one boundary. */
  function AfterBreak(s: string): (rest: string)
    ensures s != "" ==> |rest| < |s|
    ensures |rest| <= |s| && rest == s[|s| - |rest|..] && FirstBreak(s) <= |s| - |rest|
  {
    var b := FirstBreak(s);
    if b == |s| then "" else if At(s, b, '\r', '\n') then s[b + 2..] else s[b + 1..]
  }

  function SplitLines(s: string): seq<string>
    decreases |s|
  {
    if s == "" then [] else [s[..FirstBreak(s)]] + SplitLines(AfterBreak(s))
  }

  /** Cuts a line at its first double dash. */
  function CutLineComment(line: string): string {
    line[..FindPair(line, 0, '-', '-')]
  }

  function CutAll(lines: seq<string>): (r: seq<string>)
    ensures |r| == |lines|
  {
    seq(|lines|, i requires 0 <= i < |lines| => CutLineComment(lines[i]))
  }

  function JoinBlank(parts: seq<string>): string {
    if parts == [] then ""
    else if |parts| == 1 then parts[0]
    else parts[0] + " " + JoinBlank(parts[1..])
  }

  function DropLineComments(s: string): string {
    JoinBlank(CutAll(SplitLines(s)))
  }

  function SkipSpaces(s: string): (r: string)
    ensures |r| <= |s| && r == s[|s| - |r|..]
    ensures s != "" && IsSpace(s[0]) ==> |r| < |s|
    ensures r != "" ==> !IsSpace(r[0])
  {
    if s != "" && IsSpace(s[0]) then SkipSpaces(s[1..]) else s
  }

  /** Each run of white space becomes one blank. */
  function Collapse(s: string): string
    decreases |s|
  {
    if s == "" then ""
    else if IsSpace(s[0]) then " " + Collapse(SkipSpaces(s))
    else [s[0]] + Collapse(s[1..])
  }

  function Lower(s: string): (r: string)
    ensures |r| == |s| && forall i :: 0 <= i < |s| ==> r[i] == LowerChar(s[i])
  {
    seq(|s|, i requires 0 <= i < |s| => LowerChar(s[i]))
  }

  function Normalize(raw: string): string {
    var s := Strip(raw);
    if s == "" then ""
    else Lower(Strip(Collapse(DropLineComments(ReplaceLiterals(DropBlockComments(s))))))
  }

  // ---------- literals: what the scanner does to a printed token list ----------

  datatype Token = Plain(text: string) | Quoted(quote: char, content: string)

  /** A character of a literal's content as it is printed. */
  function DoubledChar(q: char, c: char): string {
    if c == q then [q, q] else [c]
  }

  function Doubled(q: char, content: string): string {
    if content == "" then "" else DoubledChar(q, content[0]) + Doubled(q, content[1..])
  }

  function PrintToken(t: Token): string {
    match t
    case Plain(text) => text
    case Quoted(q, content) => [q] + Doubled(q, content) + [q]
  }

  function PrintTokens(ts: seq<Token>): string {
    if ts == [] then "" else PrintToken(ts[0]) + PrintTokens(ts[1..])
  }

  /** The token list with every literal blanked out: what the fingerprint may depend on. */
  function Shape(ts: seq<Token>): string {
    if ts == [] then ""
    else (if ts[0].Plain? then ts[0].text else " ? ") + Shape(ts[1..])
  }

  predicate NoQuote(s: string) {
    forall i :: 0 <= i < |s| ==> !IsQuote(s[i])
  }

  predicate IsToken(t: Token) {
    match t
    case Plain(text) => text != "" && NoQuote(text)
    case Quoted(q, _) => IsQuote(q)
  }

  predicate AreTokens(ts: seq<Token>) {
    forall i :: 0 <= i < |ts| ==> IsToken(ts[i])
  }

  /** Two literals of the same quote side by side, which SQL reads as one literal. */
  predicate Glued(ts: seq<Token>, i: nat) {
    i + 1 < |ts| && ts[i].Quoted? && ts[i + 1].Quoted? && ts[i].quote == ts[i + 1].quote
  }

  lemma DoubledHead(q: char, content: string, rest: string)
    requires content != ""
    ensures Doubled(q, content) == DoubledChar(q, content[0]) + Doubled(q, content[1..])
    ensures Doubled(q, content) + [q] + rest == DoubledChar(q, content[0]) + (Doubled(q, content[1..]) + [q] + rest)
  {
  }

  lemma LiteralGoesOn(q: char, c: char, tail: string)
    ensures var head := DoubledChar(q, c); LiteralEnd(head + tail, q, 0) == |head| + LiteralEnd(tail, q, 0)
  {
    var head := DoubledChar(q, c);
    assert (head + tail)[|head|..] == tail;
    LiteralEndShift(head + tail, |head|, q, 0);
  }

  lemma {:induction false} LiteralEndOfDoubled(q: char, content: string, rest: string)
    requires rest == "" || rest[0] != q
    ensures LiteralEnd(Doubled(q, content) + [q] + rest, q, 0) == |Doubled(q, content)| + 1
    decreases |content|
  {
    if content == "" {
      assert Doubled(q, content) + [q] + rest == [q] + rest;
    } else {
      DoubledHead(q, content, rest);
      LiteralGoesOn(q, content[0], Doubled(q, content[1..]) + [q] + rest);
      LiteralEndOfDoubled(q, content[1..], rest);
    }
  }

  lemma LiteralTexts(q: char, inner: string, rest: string)
    ensures [q] + inner + [q] + rest == [q] + (inner + [q] + rest)
    ensures ([q] + (inner + [q] + rest))[|inner| + 2..] == rest
  {
  }

  lemma ScanLiteral(q: char, content: string, rest: string)
    requires IsQuote(q) && (rest == "" || rest[0] != q)
    ensures ReplaceLiterals([q] + Doubled(q, content) + [q] + rest) == " ? " + ReplaceLiterals(rest)
  {
    var inner := Doubled(q, content);
    var body := inner + [q] + rest;
    var s := [q] + body;
    LiteralTexts(q, inner, rest);
    LiteralEndOfDoubled(q, content, rest);
    assert s[1..] == body;
    LiteralEndShift(s, 1, q, 0);
    assert LiteralEnd(s, q, 1) == |inner| + 2;
  }

  lemma ScanCharacter(c: char, tail: string)
    requires !IsQuote(c)
    ensures ReplaceLiterals([c] + tail) == [c] + ReplaceLiterals(tail)
  {
    assert ([c] + tail)[1..] == tail;
  }

  lemma {:induction false} ScanPlain(text: string, rest: string)
    requires NoQuote(text)
    ensures ReplaceLiterals(text + rest) == text + ReplaceLiterals(rest)
    decreases |text|
  {
    if text == "" {
      assert text + rest == rest;
    } else {
      var first, others := [text[0]], text[1..];
      assert text == first + others;
      TextAssociates(first, others, rest);
      ScanCharacter(text[0], others + rest);
      ScanPlain(others, rest);
      TextAssociates(first, others, ReplaceLiterals(rest));
    }
  }

  lemma FirstPrinted(ts: seq<Token>)
    requires AreTokens(ts) && ts != []
    ensures var p := PrintTokens(ts);
      p != "" && if ts[0].Quoted? then p[0] == ts[0].quote else !IsQuote(p[0])
  {
  }

  lemma {:induction false} DoubledConcat(q: char, a: string, b: string)
    ensures Doubled(q, a + b) == Doubled(q, a) + Doubled(q, b)
  {
    if a == "" {
      assert a + b == b;
    } else {
      assert (a + b)[1..] == a[1..] + b;
      DoubledConcat(q, a[1..], b);
    }
  }

  lemma DoubledQuote(q: char)
    ensures Doubled(q, [q]) == [q, q]
  {
    assert Doubled(q, [q][1..]) == "";
  }

  lemma DoubledAround(q: char, a: string, b: string)
    ensures Doubled(q, a + [q] + b) == Doubled(q, a) + [q, q] + Doubled(q, b)
  {
    DoubledConcat(q, a + [q], b);
    DoubledConcat(q, a, [q]);
    DoubledQuote(q);
  }

  lemma GlueTexts(q: string, a: string, b: string)
    ensures q + a + q + (q + b + q) == q + (a + (q + q) + b) + q
  {
  }

  /** Glued literals print as one literal with their common quote in the middle. */
  lemma GluedPrint(q: char, a: string, b: string)
    ensures PrintToken(Quoted(q, a)) + PrintToken(Quoted(q, b)) == PrintToken(Quoted(q, a + [q] + b))
  {
    DoubledAround(q, a, b);
    assert [q] + [q] == [q, q];
    GlueTexts([q], Doubled(q, a), Doubled(q, b));
  }

  lemma SamePrefix(p: string, x: string, y: string)
    ensures p + x == p + y <==> x == y
  {
    assert (p + x)[|p|..] == x && (p + y)[|p|..] == y;
  }

  function MergeFirstTwo(ts: seq<Token>): (r: seq<Token>)
    requires Glued(ts, 0)
    ensures |r| == |ts| - 1 && (AreTokens(ts) ==> AreTokens(r))
  {
    [Quoted(ts[0].quote, ts[0].content + [ts[0].quote] + ts[1].content)] + ts[2..]
  }

  lemma TextAssociates(a: string, b: string, c: string)
    ensures a + (b + c) == a + b + c
  {
  }

  lemma MergePrintsAlike(ts: seq<Token>)
    requires Glued(ts, 0)
    ensures PrintTokens(MergeFirstTwo(ts)) == PrintTokens(ts)
    ensures |Shape(ts)| == |Shape(MergeFirstTwo(ts))| + 3
  {
    var m := MergeFirstTwo(ts);
    GluedPrint(ts[0].quote, ts[0].content, ts[1].content);
    assert ts[1..][1..] == ts[2..] && m[1..] == ts[2..];
    assert Shape(ts[1..]) == " ? " + Shape(ts[2..]);
    TextAssociates(PrintToken(ts[0]), PrintToken(ts[1]), PrintTokens(ts[2..]));
  }

  lemma ScanFirstQuoted(q: char, content: string, ts: seq<Token>)
    requires AreTokens(ts) && IsQuote(q) && (ts == [] || ts[0].Plain? || ts[0].quote != q)
    ensures ReplaceLiterals(PrintToken(Quoted(q, content)) + PrintTokens(ts)) == " ? " + ReplaceLiterals(PrintTokens(ts))
  {
    if ts != [] { FirstPrinted(ts); }
    ScanLiteral(q, content, PrintTokens(ts));
  }

  lemma ShapeFirst(ts: seq<Token>)
    requires ts != []
    ensures Shape(ts[..1]) == if ts[0].Plain? then ts[0].text else " ? "
    ensures Shape(ts) == Shape(ts[..1]) + Shape(ts[1..])
  {
    assert ts[..1][1..] == [];
  }

  lemma ScanFirst(ts: seq<Token>)
    requires AreTokens(ts) && ts != [] && !Glued(ts, 0)
    ensures ReplaceLiterals(PrintTokens(ts)) == Shape(ts[..1]) + ReplaceLiterals(PrintTokens(ts[1..]))
  {
    ShapeFirst(ts);
    match ts[0]
    case Plain(text) => ScanPlain(text, PrintTokens(ts[1..]));
    case Quoted(q, content) => ScanFirstQuoted(q, content, ts[1..]);
  }

  /** The scanner never yields more than the shape, and yields it exactly when no two literals
      of one quote are glued together. */
  lemma {:induction false} ScanTokensExactly(ts: seq<Token>)
    requires AreTokens(ts)
    ensures |ReplaceLiterals(PrintTokens(ts))| <= |Shape(ts)|
    ensures ReplaceLiterals(PrintTokens(ts)) == Shape(ts) <==> forall i: nat :: !Glued(ts, i)
    decreases |ts|
  {
    if ts == [] {
    } else if Glued(ts, 0) {
      MergePrintsAlike(ts);
      ScanTokensExactly(MergeFirstTwo(ts));
    } else {
      ScanFirst(ts);
      ShapeFirst(ts);
      ScanTokensExactly(ts[1..]);
      GluedTail(ts);
      SamePrefix(Shape(ts[..1]), ReplaceLiterals(PrintTokens(ts[1..])), Shape(ts[1..]));
    }
  }

  lemma GluedTail(ts: seq<Token>)
    requires ts != [] && !Glued(ts, 0)
    ensures (forall i: nat :: !Glued(ts, i)) <==> (forall i: nat :: !Glued(ts[1..], i))
  {
    forall i: nat ensures Glued(ts[1..], i) <==> Glued(ts, i + 1) {
    }
    if i: nat :| Glued(ts, i) {
      assert Glued(ts[1..], i - 1);
    }
  }

  // ---------- what each pass keeps ----------

  ghost predicate NoPair(s: string, a: char, b: char) {
    forall i :: !At(s, i, a, b)
  }

  /** No block comment: no opening is followed, two characters on, by a closing. */
  ghost predicate NoComment(s: string) {
    forall i, j :: At(s, i, '/', '*') && i + 2 <= j ==> !At(s, j, '*', '/')
  }

  /** The characters that comments are made of, none of them blank, quoted or a letter. */
  predicate Mark(c: char) {
    c == '/' || c == '*' || c == '-'
  }

  lemma SlicePair(s: string, i: int, j: int, a: char, b: char)
    requires 0 <= i <= j <= |s| && NoPair(s, a, b)
    ensures NoPair(s[i..j], a, b)
  {
    assert forall k :: At(s[i..j], k, a, b) ==> At(s, i + k, a, b);
  }

  lemma SliceComment(s: string, i: int, j: int)
    requires 0 <= i <= j <= |s| && NoComment(s)
    ensures NoComment(s[i..j])
  {
    assert forall k :: At(s[i..j], k, '/', '*') ==> At(s, i + k, '/', '*');
    assert forall k :: At(s[i..j], k, '*', '/') ==> At(s, i + k, '*', '/');
  }

  lemma SuffixPair(s: string, i: int, a: char, b: char)
    requires 0 <= i <= |s| && NoPair(s, a, b)
    ensures NoPair(s[i..], a, b)
  {
    assert s[i..|s|] == s[i..];
    SlicePair(s, i, |s|, a, b);
  }

  lemma SuffixComment(s: string, i: int)
    requires 0 <= i <= |s| && NoComment(s)
    ensures NoComment(s[i..])
  {
    assert s[i..|s|] == s[i..];
    SliceComment(s, i, |s|);
  }

  /** Gluing with marks-free text in between creates no pair of marks. */
  lemma JoinAt(p: string, m: string, q: string, a: char, b: char, k: int)
    requires m != "" && forall i :: 0 <= i < |m| ==> !Mark(m[i])
    requires Mark(a) && Mark(b) && At(p + m + q, k, a, b)
    ensures At(p, k, a, b) || At(q, k - |p| - |m|, a, b)
  {
    var s := p + m + q;
    assert forall n :: |p| <= n < |p| + |m| ==> s[n] == m[n - |p|];
    if k + 1 < |p| {
      assert s[k] == p[k] && s[k + 1] == p[k + 1];
    } else if k >= |p| + |m| {
      assert s[k] == q[k - |p| - |m|] && s[k + 1] == q[k + 1 - |p| - |m|];
    }
  }

  lemma JoinPair(p: string, m: string, q: string, a: char, b: char)
    requires m != "" && forall i :: 0 <= i < |m| ==> !Mark(m[i])
    requires Mark(a) && Mark(b) && NoPair(p, a, b) && NoPair(q, a, b)
    ensures NoPair(p + m + q, a, b)
  {
    forall k | At(p + m + q, k, a, b) ensures At(p, k, a, b) || At(q, k - |p| - |m|, a, b) {
      JoinAt(p, m, q, a, b, k);
    }
  }

  /** A comment across the join could only open in p and close in q. */
  lemma JoinComment(p: string, m: string, q: string)
    requires m != "" && forall i :: 0 <= i < |m| ==> !Mark(m[i])
    requires NoComment(p) && NoComment(q) && (NoPair(p, '/', '*') || NoPair(q, '*', '/'))
    ensures NoComment(p + m + q)
  {
    var s := p + m + q;
    forall i, j | At(s, i, '/', '*') && i + 2 <= j ensures !At(s, j, '*', '/') {
      JoinAt(p, m, q, '/', '*', i);
      if At(s, j, '*', '/') {
        JoinAt(p, m, q, '*', '/', j);
      }
    }
  }

  /** If s has no comment, a prefix that opens one leaves a rest that does not close it. */
  lemma SplitComment(s: string, n: int)
    requires 0 <= n <= |s| && NoComment(s)
    ensures NoPair(s[..n], '/', '*') || NoPair(s[n..], '*', '/')
  {
    assert forall k :: At(s[..n], k, '/', '*') ==> At(s, k, '/', '*') && k + 2 <= n;
    assert forall k :: At(s[n..], k, '*', '/') ==> At(s, n + k, '*', '/');
  }

  lemma AfterOpening(s: string)
    requires NoComment(s) && At(s, 0, '/', '*')
    ensures NoPair(s[2..], '*', '/')
  {
    SplitComment(s, 2);
    assert At(s[..2], 0, '/', '*');
  }

  /** A first character in front of text that keeps its own promises. */
  lemma ConsPair(c: char, x: string, a: char, b: char)
    requires NoPair(x, a, b) && !(c == a && x != "" && x[0] == b)
    ensures NoPair([c] + x, a, b)
  {
    assert forall k :: k >= 1 && At([c] + x, k, a, b) ==> At(x, k - 1, a, b);
  }

  lemma ConsComment(c: char, x: string)
    requires NoComment(x)
    requires c == '/' && x != "" && x[0] == '*' ==> NoPair(x[1..], '*', '/')
    ensures NoComment([c] + x)
  {
    var s := [c] + x;
    assert forall k :: k >= 1 && At(s, k, '/', '*') ==> At(x, k - 1, '/', '*');
    assert forall k :: k >= 1 && At(s, k, '*', '/') ==> At(x, k - 1, '*', '/');
    if x != "" {
      assert forall k :: k >= 1 && At(x, k, '*', '/') ==> At(x[1..], k - 1, '*', '/');
    }
  }

  lemma BlankFront(m: string, x: string)
    requires m != "" && forall i :: 0 <= i < |m| ==> !Mark(m[i])
    ensures NoComment(x) ==> NoComment(m + x)
    ensures forall a, b :: Mark(a) && Mark(b) && NoPair(x, a, b) ==> NoPair(m + x, a, b)
  {
    assert "" + m + x == m + x;
    if NoComment(x) { JoinComment("", m, x); }
    forall a, b | Mark(a) && Mark(b) && NoPair(x, a, b) ensures NoPair(m + x, a, b) {
      JoinPair("", m, x, a, b);
    }
  }

  // block comments

  lemma {:induction false} NothingToDrop(s: string)
    requires NoComment(s)
    ensures DropBlockComments(s) == s
    decreases |s|
  {
    if s != "" {
      SuffixComment(s, 1);
      NothingToDrop(s[1..]);
      assert s == [s[0]] + s[1..];
    }
  }

  lemma {:induction false} DropsAllComments(s: string)
    ensures NoComment(DropBlockComments(s))
    decreases |s|
  {
    if s == "" {
    } else if At(s, 0, '/', '*') && FindPair(s, 2, '*', '/') < |s| {
      var rest := s[FindPair(s, 2, '*', '/') + 2..];
      DropsAllComments(rest);
      BlankFront(" ", DropBlockComments(rest));
    } else {
      DropsAllComments(s[1..]);
      if At(s, 0, '/', '*') {
        UnclosedStays(s);
      }
      ConsComment(s[0], DropBlockComments(s[1..]));
    }
  }

  /** Behind an opening that nothing closes, the rest of the text is left as it is. */
  lemma UnclosedStays(s: string)
    requires At(s, 0, '/', '*') && FindPair(s, 2, '*', '/') == |s|
    ensures NoPair(DropBlockComments(s[1..])[1..], '*', '/')
  {
    var u := s[2..];
    assert forall k :: At(u, k, '*', '/') ==> At(s, k + 2, '*', '/');
    NothingToDrop(u);
    assert s[1..][1..] == u;
    assert DropBlockComments(s[1..]) == ['*'] + DropBlockComments(u);
  }

  // literals

  lemma {:induction false} NothingToReplace(s: string)
    requires NoQuote(s)
    ensures ReplaceLiterals(s) == s
    decreases |s|
  {
    if s != "" {
      NothingToReplace(s[1..]);
      assert s == [s[0]] + s[1..];
    }
  }

  lemma {:induction false} ReplacesAllQuotes(s: string)
    ensures NoQuote(ReplaceLiterals(s))
    decreases |s|
  {
    if s != "" {
      if IsQuote(s[0]) {
        ReplacesAllQuotes(s[LiteralEnd(s, s[0], 1)..]);
      } else {
        ReplacesAllQuotes(s[1..]);
      }
    }
  }

  lemma {:induction false} ReplacingKeepsPairs(s: string, a: char, b: char)
    requires Mark(a) && Mark(b) && NoPair(s, a, b)
    ensures NoPair(ReplaceLiterals(s), a, b)
    decreases |s|
  {
    if s == "" {
    } else if IsQuote(s[0]) {
      var n := LiteralEnd(s, s[0], 1);
      SuffixPair(s, n, a, b);
      ReplacingKeepsPairs(s[n..], a, b);
      BlankFront(" ? ", ReplaceLiterals(s[n..]));
    } else {
      SuffixPair(s, 1, a, b);
      ReplacingKeepsPairs(s[1..], a, b);
      assert !At(s, 0, a, b);
      ConsPair(s[0], ReplaceLiterals(s[1..]), a, b);
    }
  }

  lemma {:induction false} ReplacingKeepsNoComment(s: string)
    requires NoComment(s)
    ensures NoComment(ReplaceLiterals(s))
    decreases |s|
  {
    if s == "" {
    } else if IsQuote(s[0]) {
      var n := LiteralEnd(s, s[0], 1);
      SuffixComment(s, n);
      ReplacingKeepsNoComment(s[n..]);
      BlankFront(" ? ", ReplaceLiterals(s[n..]));
    } else {
      SuffixComment(s, 1);
      ReplacingKeepsNoComment(s[1..]);
      if At(s, 0, '/', '*') {
        AfterOpening(s);
        assert s[1..][1..] == s[2..];
        ReplacingKeepsPairs(s[2..], '*', '/');
        assert ReplaceLiterals(s[1..]) == ['*'] + ReplaceLiterals(s[2..]);
      }
      ConsComment(s[0], ReplaceLiterals(s[1..]));
    }
  }

  // line comments

  lemma CutAllCons(line: string, lines: seq<string>)
    ensures CutAll([line] + lines) == [CutLineComment(line)] + CutAll(lines)
  {
  }

  lemma JoinCons(part: string, parts: seq<string>)
    ensures JoinBlank([part] + parts) == if parts == [] then part else part + " " + JoinBlank(parts)
  {
    assert ([part] + parts)[1..] == parts;
  }

  lemma LinesUnfold(s: string)
    requires s != ""
    ensures var line, rest := CutLineComment(s[..FirstBreak(s)]), AfterBreak(s);
      DropLineComments(s) == if rest == "" then line else line + " " + DropLineComments(rest)
  {
    var line, lines := s[..FirstBreak(s)], SplitLines(AfterBreak(s));
    assert SplitLines(s) == [line] + lines;
    CutAllCons(line, lines);
    JoinCons(CutLineComment(line), CutAll(lines));
  }

  lemma NothingToCut(s: string)
    requires NoPair(s, '-', '-') && forall i :: 0 <= i < |s| ==> !IsLineBreak(s[i])
    ensures DropLineComments(s) == s
  {
    if s != "" {
      LinesUnfold(s);
      assert FirstBreak(s) == |s| && s[..|s|] == s;
    }
  }

  lemma BreakChars(s: string)
    requires s != ""
    ensures var b, m := FirstBreak(s), |s| - |AfterBreak(s)|;
      b <= m <= b + 2 && (b == m ==> m == |s|) && (b < m ==> IsLineBreak(s[b])) && (b + 1 < m ==> IsLineBreak(s[b + 1]))
  {
    var b := FirstBreak(s);
    if b < |s| {
      assert AfterBreak(s) == if At(s, b, '\r', '\n') then s[b + 2..] else s[b + 1..];
    }
  }

  lemma CutBefore(s: string, b: nat) returns (n: nat)
    requires b <= |s|
    ensures n <= b && CutLineComment(s[..b]) == s[..n] && NoPair(s[..n], '-', '-')
    ensures NoPair(s, '-', '-') ==> n == b
  {
    var whole := s[..b];
    n := FindPair(whole, 0, '-', '-');
    assert whole[..n] == s[..n];
    forall k ensures !At(s[..n], k, '-', '-') {
      assert At(s[..n], k, '-', '-') ==> At(whole, k, '-', '-') && k < n;
    }
    if n < b {
      assert At(s, n, '-', '-');
    }
  }

  /** The first line is cut to n characters and the next one starts at m; without line comments
      only the line end lies in between. */
  lemma FirstLine(s: string) returns (n: nat, m: nat)
    requires s != ""
    ensures n <= m <= |s| && m > 0 && (m < |s| ==> n < m)
    ensures DropLineComments(s) == if m == |s| then s[..n] else s[..n] + " " + DropLineComments(s[m..])
    ensures NoPair(s[..n], '-', '-')
    ensures NoPair(s, '-', '-') ==> forall i :: n <= i < m ==> IsLineBreak(s[i])
  {
    var b := FirstBreak(s);
    m := |s| - |AfterBreak(s)|;
    n := CutBefore(s, b);
    LinesCut(s, s[..n], s[m..]);
    BreakChars(s);
    BreaksBetween(s, b, m);
  }

  lemma LinesCut(s: string, line: string, rest: string)
    requires s != "" && line == CutLineComment(s[..FirstBreak(s)]) && rest == AfterBreak(s)
    ensures DropLineComments(s) == if rest == "" then line else line + " " + DropLineComments(rest)
  {
    LinesUnfold(s);
  }

  lemma BreaksBetween(s: string, b: nat, m: nat)
    requires b <= m <= b + 2 && m <= |s| && (b < m ==> IsLineBreak(s[b])) && (b + 1 < m ==> IsLineBreak(s[b + 1]))
    ensures forall i :: b <= i < m ==> IsLineBreak(s[i])
  {
    forall i | b <= i < m ensures IsLineBreak(s[i]) {
      assert i == b || i == b + 1;
    }
  }

  lemma {:induction false} CuttingKeepsPairs(s: string, a: char, b: char)
    requires Mark(a) && Mark(b) && (NoPair(s, a, b) || (a == '-' && b == '-'))
    ensures NoPair(DropLineComments(s), a, b)
    decreases |s|
  {
    if s != "" {
      var n, m := FirstLine(s);
      if NoPair(s, a, b) {
        SlicePair(s, 0, n, a, b);
        SuffixPair(s, m, a, b);
      }
      if m < |s| {
        CuttingKeepsPairs(s[m..], a, b);
        JoinPair(s[..n], " ", DropLineComments(s[m..]), a, b);
      }
    }
  }

  lemma QuoteFreeParts(s: string, n: nat, m: nat)
    requires NoQuote(s) && n <= m <= |s|
    ensures NoQuote(s[..n]) && NoQuote(s[m..])
  {
  }

  lemma QuoteFreeJoin(p: string, q: string)
    requires NoQuote(p) && NoQuote(q)
    ensures NoQuote(p + " " + q)
  {
  }

  lemma {:induction false} CuttingKeepsNoQuote(s: string)
    requires NoQuote(s)
    ensures NoQuote(DropLineComments(s))
    decreases |s|
  {
    if s != "" {
      var n, m := FirstLine(s);
      QuoteFreeParts(s, n, m);
      if m < |s| {
        CuttingKeepsNoQuote(s[m..]);
        QuoteFreeJoin(s[..n], DropLineComments(s[m..]));
      }
    }
  }

  lemma {:induction false} CuttingKeepsNoComment(s: string)
    requires NoComment(s)
    ensures NoComment(DropLineComments(s))
    decreases |s|
  {
    if s != "" {
      var n, m := FirstLine(s);
      SliceComment(s, 0, n);
      if m < |s| {
        SuffixComment(s, m);
        CuttingKeepsNoComment(s[m..]);
        RestCloses(s, n, m);
        JoinComment(s[..n], " ", DropLineComments(s[m..]));
      }
    }
  }

  lemma RestCloses(s: string, n: int, m: int)
    requires 0 <= n <= m <= |s| && NoComment(s)
    ensures NoPair(s[..n], '/', '*') || NoPair(DropLineComments(s[m..]), '*', '/')
  {
    SplitComment(s, n);
    if NoPair(s[n..], '*', '/') {
      SuffixPair(s[n..], m - n, '*', '/');
      assert s[n..][m - n..] == s[m..];
      CuttingKeepsPairs(s[m..], '*', '/');
    }
  }

  // white space

  /** Only blanks, and no two in a row. */
  ghost predicate Squeezed(s: string) {
    && (forall i :: 0 <= i < |s| && IsSpace(s[i]) ==> s[i] == ' ')
    && NoPair(s, ' ', ' ')
  }

  lemma ConsSqueezed(c: char, x: string)
    requires Squeezed(x)
    requires IsSpace(c) ==> c == ' ' && (x == "" || !IsSpace(x[0]))
    ensures Squeezed([c] + x)
  {
    assert IsSpace(' ');
    ConsPair(c, x, ' ', ' ');
    assert forall i :: 0 < i < |[c] + x| ==> ([c] + x)[i] == x[i - 1];
  }

  lemma CollapseStart(s: string)
    requires s == "" || !IsSpace(s[0])
    ensures Collapse(s) == "" || !IsSpace(Collapse(s)[0])
  {
  }

  lemma {:induction false} CollapseSqueezes(s: string)
    ensures Squeezed(Collapse(s))
    decreases |s|
  {
    if s == "" {
    } else if IsSpace(s[0]) {
      CollapseStart(SkipSpaces(s));
      CollapseSqueezes(SkipSpaces(s));
      ConsSqueezed(' ', Collapse(SkipSpaces(s)));
    } else {
      CollapseSqueezes(s[1..]);
      ConsSqueezed(s[0], Collapse(s[1..]));
    }
  }

  lemma {:induction false} CollapsingKeepsNoQuote(s: string)
    requires NoQuote(s)
    ensures NoQuote(Collapse(s))
    decreases |s|
  {
    if s == "" {
    } else if IsSpace(s[0]) {
      CollapsingKeepsNoQuote(SkipSpaces(s));
    } else {
      CollapsingKeepsNoQuote(s[1..]);
    }
  }

  lemma {:induction false} NothingToCollapse(s: string)
    requires Squeezed(s)
    ensures Collapse(s) == s
    decreases |s|
  {
    if s != "" {
      SuffixPair(s, 1, ' ', ' ');
      NothingToCollapse(s[1..]);
      assert s == [s[0]] + s[1..];
      if IsSpace(s[0]) {
        assert !At(s, 0, ' ', ' ');
        assert SkipSpaces(s) == s[1..];
      }
    }
  }

  lemma {:induction false} CollapsingKeepsPairs(s: string, a: char, b: char)
    requires Mark(a) && Mark(b) && NoPair(s, a, b)
    ensures NoPair(Collapse(s), a, b)
    decreases |s|
  {
    if s == "" {
    } else if IsSpace(s[0]) {
      SuffixPair(s, |s| - |SkipSpaces(s)|, a, b);
      CollapsingKeepsPairs(SkipSpaces(s), a, b);
      ConsPair(' ', Collapse(SkipSpaces(s)), a, b);
    } else {
      SuffixPair(s, 1, a, b);
      CollapsingKeepsPairs(s[1..], a, b);
      assert !At(s, 0, a, b);
      ConsPair(s[0], Collapse(s[1..]), a, b);
    }
  }

  lemma {:induction false} CollapsingKeepsNoComment(s: string)
    requires NoComment(s)
    ensures NoComment(Collapse(s))
    decreases |s|
  {
    if s == "" {
    } else if IsSpace(s[0]) {
      SuffixComment(s, |s| - |SkipSpaces(s)|);
      CollapsingKeepsNoComment(SkipSpaces(s));
      ConsComment(' ', Collapse(SkipSpaces(s)));
    } else {
      SuffixComment(s, 1);
      CollapsingKeepsNoComment(s[1..]);
      if At(s, 0, '/', '*') {
        AfterOpening(s);
        assert s[1..][1..] == s[2..];
        CollapsingKeepsPairs(s[2..], '*', '/');
        assert Collapse(s[1..]) == ['*'] + Collapse(s[2..]);
      }
      ConsComment(s[0], Collapse(s[1..]));
    }
  }

  // ends and case

  lemma TakeOfDrop(s: string, i: nat, n: nat)
    requires i + n <= |s|
    ensures s[i..][..n] == s[i..i + n]
  {
  }

  /** Where the stripped text starts. */
  function StripStart(s: string): (i: nat)
    ensures i + |Strip(s)| <= |s| && Strip(s) == s[i..i + |Strip(s)|]
  {
    var l := StripLeft(s);
    TakeOfDrop(s, |s| - |l|, |Strip(s)|);
    |s| - |l|
  }

  lemma NothingToStrip(s: string)
    requires s != "" && !IsSpace(s[0]) && !IsSpace(s[|s| - 1])
    ensures Strip(s) == s
  {
  }

  lemma LowerPair(s: string, a: char, b: char)
    requires NoPair(s, a, b)
    requires (Mark(a) && Mark(b)) || (a == ' ' && b == ' ')
    ensures NoPair(Lower(s), a, b)
  {
    assert forall k :: At(Lower(s), k, a, b) ==> At(s, k, a, b);
  }

  lemma LowerComment(s: string)
    requires NoComment(s)
    ensures NoComment(Lower(s))
  {
    assert forall k :: At(Lower(s), k, '/', '*') ==> At(s, k, '/', '*');
    assert forall k :: At(Lower(s), k, '*', '/') ==> At(s, k, '*', '/');
  }

  lemma LowerSpace(c: char)
    ensures IsSpace(LowerChar(c)) <==> IsSpace(c)
    ensures !('A' <= LowerChar(c) <= 'Z')
  {
  }

  lemma LowerText(s: string)
    ensures forall i :: 0 <= i < |s| ==> (IsSpace(Lower(s)[i]) <==> IsSpace(s[i]))
    ensures NoCapital(Lower(s))
    ensures NoQuote(s) ==> NoQuote(Lower(s))
  {
    forall i | 0 <= i < |s|
      ensures IsSpace(Lower(s)[i]) <==> IsSpace(s[i])
      ensures !('A' <= Lower(s)[i] <= 'Z')
    {
      LowerSpace(s[i]);
    }
  }

  // ---------- the whole normaliser ----------

  /** A text every pass leaves alone. */
  ghost predicate Normal(s: string) {
    && NoComment(s) && NoQuote(s) && NoPair(s, '-', '-') && Squeezed(s)
    && (s != "" ==> !IsSpace(s[0]) && !IsSpace(s[|s| - 1]))
    && NoCapital(s)
  }

  /** No ASCII capital letter. */
  predicate NoCapital(s: string) {
    forall i :: 0 <= i < |s| ==> !('A' <= s[i] <= 'Z')
  }

  lemma NothingToLower(s: string)
    requires NoCapital(s)
    ensures Lower(s) == s
  {
  }

  lemma ContentPassesKeep(s: string)
    requires NoComment(s) && NoQuote(s) && NoPair(s, '-', '-') && Squeezed(s)
    ensures DropLineComments(ReplaceLiterals(DropBlockComments(s))) == s
  {
    NothingToDrop(s);
    NothingToReplace(s);
    NothingToCut(s);
  }

  lemma SpacePassesKeep(s: string)
    requires Squeezed(s) && s != "" && !IsSpace(s[0]) && !IsSpace(s[|s| - 1])
    ensures Strip(Collapse(s)) == s && Strip(s) == s
  {
    NothingToCollapse(s);
    NothingToStrip(s);
  }

  lemma NormalIsFixed(s: string)
    requires Normal(s)
    ensures Normalize(s) == s
  {
    if s != "" {
      SpacePassesKeep(s);
      ContentPassesKeep(s);
      NothingToLower(s);
    }
  }

  /** What holds once the three content passes are through. */
  ghost predicate Clean(s: string) {
    NoComment(s) && NoQuote(s) && NoPair(s, '-', '-')
  }

  lemma ContentPassesClean(s: string)
    ensures Clean(DropLineComments(ReplaceLiterals(DropBlockComments(s))))
  {
    var a := DropBlockComments(s);
    DropsAllComments(s);
    ReplacingKeepsNoComment(a);
    ReplacesAllQuotes(a);
    CuttingKeepsPairs(ReplaceLiterals(a), '-', '-');
    CuttingKeepsNoQuote(ReplaceLiterals(a));
    CuttingKeepsNoComment(ReplaceLiterals(a));
  }

  lemma CollapseKeepsClean(c: string)
    requires Clean(c)
    ensures Clean(Collapse(c)) && Squeezed(Collapse(c))
  {
    CollapseSqueezes(c);
    CollapsingKeepsPairs(c, '-', '-');
    CollapsingKeepsNoComment(c);
    CollapsingKeepsNoQuote(c);
  }

  lemma SpacePassesNormal(c: string)
    requires Clean(c)
    ensures Normal(Lower(Strip(Collapse(c))))
  {
    CollapseKeepsClean(c);
    EndPassesNormal(Collapse(c));
  }

  lemma EndPassesNormal(d: string)
    requires Clean(d) && Squeezed(d)
    ensures Normal(Lower(Strip(d)))
  {
    StripKeepsClean(d);
    LowerIsNormal(Strip(d));
  }

  lemma LowerIsNormal(s: string)
    requires Clean(s) && Squeezed(s)
    requires s != "" ==> !IsSpace(s[0]) && !IsSpace(s[|s| - 1])
    ensures Normal(Lower(s))
  {
    LowerText(s);
    LowerComment(s);
    LowerPair(s, '-', '-');
    LowerPair(s, ' ', ' ');
  }

  lemma SliceClean(d: string, i: nat, j: nat, t: string)
    requires Clean(d) && Squeezed(d) && i <= j <= |d| && t == d[i..j]
    ensures Clean(t) && Squeezed(t)
  {
    SliceComment(d, i, j);
    SlicePair(d, i, j, '-', '-');
    SlicePair(d, i, j, ' ', ' ');
    assert forall k :: 0 <= k < j - i ==> t[k] == d[i + k];
  }

  lemma StripEnds(d: string)
    ensures Strip(d) != "" ==> !IsSpace(Strip(d)[0]) && !IsSpace(Strip(d)[|Strip(d)| - 1])
  {
    var l := StripLeft(d);
    assert Strip(d) == l[..|Strip(d)|];
  }

  lemma StripKeepsClean(d: string)
    requires Clean(d) && Squeezed(d)
    ensures Clean(Strip(d)) && Squeezed(Strip(d))
    ensures Strip(d) != "" ==> !IsSpace(Strip(d)[0]) && !IsSpace(Strip(d)[|Strip(d)| - 1])
  {
    var i: nat := StripStart(d);
    SliceClean(d, i, i + |Strip(d)|, Strip(d));
    StripEnds(d);
  }

  lemma NormalizeIsNormal(raw: string)
    ensures Normal(Normalize(raw))
  {
    ContentPassesClean(Strip(raw));
    SpacePassesNormal(DropLineComments(ReplaceLiterals(DropBlockComments(Strip(raw)))));
  }

  /** Normalising twice is normalising once, and the result holds no quote, no comment of
      either kind, no white space but single inner blanks, and no ASCII capital. */
  lemma NormalizeIdempotent(raw: string)
    ensures Normalize(Normalize(raw)) == Normalize(raw)
    ensures Normal(Normalize(raw))
  {
    NormalizeIsNormal(raw);
    NormalIsFixed(Normalize(raw));
  }
}
