/** Which statements get one fingerprint: what the normaliser keeps of a text are its words, the
    runs of characters other than white space, up to the case of ASCII letters. */
module FingerprintWords {
  import opened SqlFingerprint

  datatype Word = Word(text: string)

  /** Where the word at the start of s ends. */
  function WordEnd(s: string): (e: nat)
    ensures e <= |s| && (e < |s| ==> IsSpace(s[e]))
    ensures forall i :: 0 <= i < e ==> !IsSpace(s[i])
  {
    if s == "" || IsSpace(s[0]) then 0 else 1 + WordEnd(s[1..])
  }

  /** The words of a text in order. */
  function Words(s: string): seq<Word>
    decreases |s|
  {
    if s == "" then []
    else if IsSpace(s[0]) then Words(s[1..])
    else [Word(s[..WordEnd(s)])] + Words(s[WordEnd(s)..])
  }

  /** The same character, or the two cases of one ASCII letter. */
  predicate AgreeChar(x: char, y: char) {
    || x == y
    || ('A' <= x <= 'Z' && y as int == x as int + 32)
    || ('A' <= y <= 'Z' && x as int == y as int + 32)
  }

  predicate AgreeText(a: string, b: string) {
    |a| == |b| && forall i :: 0 <= i < |a| ==> AgreeChar(a[i], b[i])
  }

  predicate AgreeWords(v: seq<Word>, w: seq<Word>) {
    |v| == |w| && forall i :: 0 <= i < |v| ==> AgreeText(v[i].text, w[i].text)
  }

  /** A text without quotes and without comments of either kind. */
  ghost predicate PlainText(s: string) {
    NoQuote(s) && NoComment(s) && NoPair(s, '-', '-')
  }

  const SPACES := {9, 10, 11, 12, 13, 28, 29, 30, 31, 32, 133, 160, 5760, 8192, 8193, 8194, 8195, 8196, 8197, 8198, 8199, 8200,
                   8201, 8202, 8232, 8233, 8239, 8287, 12288}
  const LINE_BREAKS := {10, 11, 12, 13, 28, 29, 30, 133, 8232, 8233}

  /** White space and line boundaries of Python strings, one by one. */
  lemma SpacesByCode(c: char)
    ensures IsSpace(c) <==> c as int in SPACES
    ensures IsLineBreak(c) <==> c as int in LINE_BREAKS
    ensures IsLineBreak(c) ==> IsSpace(c)
  {
  }

  // ---------- words and white space ----------

  lemma WordEndIs(s: string, e: nat)
    requires e <= |s| && (e < |s| ==> IsSpace(s[e])) && forall i :: 0 <= i < e ==> !IsSpace(s[i])
    ensures WordEnd(s) == e
  {
  }

  lemma WordsOfFirst(s: string, e: nat)
    requires s != "" && !IsSpace(s[0]) && WordEnd(s) == e
    ensures 0 < e <= |s| && Words(s) == [Word(s[..e])] + Words(s[e..])
  {
  }

  lemma PrefixTexts(a: string, t: string, e: nat)
    requires e <= |a|
    ensures (a + t)[..e] == a[..e] && (a + t)[e..] == a[e..] + t
  {
  }

  lemma FirstWordBeforeSpace(a: string, t: string, e: nat)
    requires a != "" && !IsSpace(a[0]) && e == WordEnd(a) && (t == "" || IsSpace(t[0]))
    ensures Words(a + t) == [Word(a[..e])] + Words(a[e..] + t)
  {
    WordsOfFirst(a, e);
    PrefixTexts(a, t, e);
    assert forall i :: 0 <= i < e ==> (a + t)[i] == a[i];
    WordEndIs(a + t, e);
    WordsOfFirst(a + t, e);
  }

  lemma WordsAssociate(w: Word, v: seq<Word>, rest: seq<Word>)
    ensures [w] + (v + rest) == [w] + v + rest
  {
  }

  /** White space ends a word. */
  lemma {:induction false} WordsBeforeSpace(a: string, t: string)
    requires t == "" || IsSpace(t[0])
    ensures Words(a + t) == Words(a) + Words(t)
    decreases |a|
  {
    if a == "" {
      assert a + t == t;
    } else if IsSpace(a[0]) {
      PrefixTexts(a, t, 1);
      WordsBeforeSpace(a[1..], t);
    } else {
      var e := WordEnd(a);
      WordsOfFirst(a, e);
      FirstWordBeforeSpace(a, t, e);
      WordsBeforeSpace(a[e..], t);
      WordsAssociate(Word(a[..e]), Words(a[e..]), Words(t));
    }
  }

  lemma {:induction false} WordsBehindSpace(gap: string, b: string)
    requires forall i :: 0 <= i < |gap| ==> IsSpace(gap[i])
    ensures Words(gap + b) == Words(b)
    decreases |gap|
  {
    if gap == "" {
      assert gap + b == b;
    } else {
      PrefixTexts(gap, b, 1);
      WordsBehindSpace(gap[1..], b);
    }
  }

  lemma WordsAround(a: string, gap: string, b: string)
    requires gap != "" && forall i :: 0 <= i < |gap| ==> IsSpace(gap[i])
    ensures Words(a + gap + b) == Words(a) + Words(b)
  {
    TextAssociates(a, gap, b);
    WordsBeforeSpace(a, gap + b);
    WordsBehindSpace(gap, b);
  }

  lemma WordsOfSpace(gap: string)
    requires forall i :: 0 <= i < |gap| ==> IsSpace(gap[i])
    ensures Words(gap) == []
  {
    WordsBehindSpace(gap, "");
    assert gap + "" == gap;
  }

  // ---------- what the passes do to the words ----------

  lemma {:induction false} StripLeftKeepsWords(s: string)
    ensures Words(StripLeft(s)) == Words(s)
    decreases |s|
  {
    if s != "" && IsSpace(s[0]) {
      StripLeftKeepsWords(s[1..]);
    }
  }

  lemma {:induction false} StripRightKeepsWords(s: string)
    ensures Words(StripRight(s)) == Words(s)
    decreases |s|
  {
    if s != "" && IsSpace(s[|s| - 1]) {
      var n := |s| - 1;
      StripRightKeepsWords(s[..n]);
      assert s == s[..n] + [s[n]];
      WordsBeforeGap(s[..n], [s[n]]);
    }
  }

  lemma StripKeepsWords(s: string)
    ensures Words(Strip(s)) == Words(s)
  {
    StripLeftKeepsWords(s);
    StripRightKeepsWords(StripLeft(s));
  }

  lemma {:induction false} SkippingKeepsWords(s: string)
    ensures Words(SkipSpaces(s)) == Words(s)
    decreases |s|
  {
    if s != "" && IsSpace(s[0]) {
      SkippingKeepsWords(s[1..]);
    }
  }

  /** The words of a text with one more character in front. */
  function Pushed(c: char, x: string): seq<Word> {
    var ws := Words(x);
    if x == "" || IsSpace(x[0]) || ws == [] then [Word([c])] + ws else [Word([c] + ws[0].text)] + ws[1..]
  }

  lemma WordsPushed(c: char, x: string)
    requires !IsSpace(c)
    ensures Words([c] + x) == Pushed(c, x)
  {
    var s, e := [c] + x, WordEnd(x);
    assert s[1..] == x;
    WordsOfFirst(s, 1 + e);
    PushedTexts(c, x, e);
    if x == "" || IsSpace(x[0]) {
      assert e == 0 && x[0..] == x;
    } else {
      WordsOfFirst(x, e);
    }
  }

  lemma PushedTexts(c: char, x: string, e: nat)
    requires e <= |x|
    ensures ([c] + x)[..1 + e] == [c] + x[..e] && ([c] + x)[1 + e..] == x[e..]
  {
  }

  lemma PushedAlike(c: char, x: string, y: string)
    requires Words(x) == Words(y)
    requires (x == "" || IsSpace(x[0])) <==> (y == "" || IsSpace(y[0]))
    ensures Pushed(c, x) == Pushed(c, y)
  {
  }

  lemma {:induction false} CollapseKeepsWords(s: string)
    ensures Words(Collapse(s)) == Words(s)
    decreases |s|
  {
    if s == "" {
    } else if IsSpace(s[0]) {
      var rest := SkipSpaces(s);
      CollapseKeepsWords(rest);
      SkippingKeepsWords(s);
      WordsBehindSpace(" ", Collapse(rest));
    } else {
      CollapseKeepsWords(s[1..]);
      CollapseBehind(s[0], s[1..]);
      assert s == [s[0]] + s[1..];
    }
  }

  lemma CollapseBehind(c: char, x: string)
    requires !IsSpace(c) && Words(Collapse(x)) == Words(x)
    ensures Words([c] + Collapse(x)) == Words([c] + x)
  {
    WordsPushed(c, x);
    WordsPushed(c, Collapse(x));
    PushedAlike(c, x, Collapse(x));
  }

  lemma ThreeParts(s: string, n: nat, m: nat)
    requires n <= m <= |s|
    ensures s == s[..n] + s[n..m] + s[m..]
  {
  }

  lemma {:induction false} CuttingKeepsWords(s: string)
    requires NoPair(s, '-', '-')
    ensures Words(DropLineComments(s)) == Words(s)
    decreases |s|
  {
    if s != "" {
      var n, m := FirstLine(s);
      ThreeParts(s, n, m);
      GapIsSpace(s, n, m);
      if m < |s| {
        SuffixPair(s, m, '-', '-');
        CuttingKeepsWords(s[m..]);
        WordsAround(s[..n], s[n..m], s[m..]);
        WordsAround(s[..n], " ", DropLineComments(s[m..]));
      } else {
        WordsBeforeGap(s[..n], s[n..m]);
        assert s == s[..n] + s[n..m];
      }
    }
  }

  lemma GapIsSpace(s: string, n: nat, m: nat)
    requires n <= m <= |s| && forall i :: n <= i < m ==> IsLineBreak(s[i])
    ensures forall i :: 0 <= i < m - n ==> IsSpace(s[n..m][i])
  {
  }

  lemma WordsBeforeGap(p: string, gap: string)
    requires forall i :: 0 <= i < |gap| ==> IsSpace(gap[i])
    ensures Words(p + gap) == Words(p)
  {
    WordsOfSpace(gap);
    WordsBeforeSpace(p, gap);
    NoWordsMore(Words(p));
  }

  lemma NoWordsMore(ws: seq<Word>)
    ensures ws + [] == ws
  {
  }

  function LowerWords(ws: seq<Word>): (r: seq<Word>)
    ensures |r| == |ws| && forall i :: 0 <= i < |ws| ==> r[i] == Word(Lower(ws[i].text))
  {
    seq(|ws|, i requires 0 <= i < |ws| => Word(Lower(ws[i].text)))
  }

  lemma LowerSlices(s: string, e: nat)
    requires e <= |s|
    ensures Lower(s)[..e] == Lower(s[..e]) && Lower(s)[e..] == Lower(s[e..])
  {
  }

  lemma LowerWordsCons(w: Word, ws: seq<Word>)
    ensures LowerWords([w] + ws) == [Word(Lower(w.text))] + LowerWords(ws)
  {
  }

  lemma {:induction false} LowerKeepsWords(s: string)
    ensures Words(Lower(s)) == LowerWords(Words(s))
    decreases |s|
  {
    LowerText(s);
    if s == "" {
    } else if IsSpace(s[0]) {
      LowerSlices(s, 1);
      LowerKeepsWords(s[1..]);
    } else {
      var e := WordEnd(s);
      WordsOfFirst(s, e);
      LowerSlices(s, e);
      WordEndIs(Lower(s), e);
      WordsOfFirst(Lower(s), e);
      LowerKeepsWords(s[e..]);
      LowerWordsCons(Word(s[..e]), Words(s[e..]));
    }
  }

  // ---------- a normal text is its words ----------

  function JoinWords(ws: seq<Word>): string {
    if ws == [] then ""
    else if |ws| == 1 then ws[0].text
    else ws[0].text + " " + JoinWords(ws[1..])
  }

  lemma JoinWordsCons(w: Word, ws: seq<Word>)
    ensures JoinWords([w] + ws) == if ws == [] then w.text else w.text + " " + JoinWords(ws)
  {
    assert ([w] + ws)[1..] == ws;
  }

  /** Behind the first word of a squeezed text come one blank and another word. */
  lemma AfterWord(s: string, e: nat)
    requires Squeezed(s) && s != "" && !IsSpace(s[|s| - 1])
    requires e < |s| && IsSpace(s[e])
    ensures e + 1 < |s| && s == s[..e] + " " + s[e + 1..] && !IsSpace(s[e + 1])
    ensures Squeezed(s[e + 1..])
  {
    SuffixPair(s, e + 1, ' ', ' ');
    assert !At(s, e, ' ', ' ');
  }

  lemma {:induction false} NormalIsItsWords(s: string)
    requires Squeezed(s) && (s != "" ==> !IsSpace(s[0]) && !IsSpace(s[|s| - 1]))
    ensures JoinWords(Words(s)) == s
    decreases |s|
  {
    if s != "" {
      var e := WordEnd(s);
      WordsOfFirst(s, e);
      if e == |s| {
        assert s[..e] == s && s[e..] == "";
      } else {
        AfterWord(s, e);
        NormalIsItsWords(s[e + 1..]);
        assert s[e..][1..] == s[e + 1..];
        assert Words(s[e + 1..]) != [];
      }
      JoinWordsCons(Word(s[..e]), Words(s[e..]));
    }
  }

  // ---------- main results ----------

  /** The text behind the three passes over comments and literals. */
  function Content(raw: string): string {
    DropLineComments(ReplaceLiterals(DropBlockComments(Strip(raw))))
  }

  lemma WordsOfNormalized(raw: string)
    ensures Words(Normalize(raw)) == LowerWords(Words(Content(raw)))
  {
    if Strip(raw) != "" {
      var c := Content(raw);
      CollapseKeepsWords(c);
      StripKeepsWords(Collapse(c));
      LowerKeepsWords(Strip(Collapse(c)));
    }
  }

  lemma AgreeCharExactly(x: char, y: char)
    ensures LowerChar(x) == LowerChar(y) <==> AgreeChar(x, y)
  {
  }

  lemma AgreeTextExactly(a: string, b: string)
    ensures Lower(a) == Lower(b) <==> AgreeText(a, b)
  {
    forall i | 0 <= i < |a| && i < |b| ensures Lower(a)[i] == Lower(b)[i] <==> AgreeChar(a[i], b[i]) {
      AgreeCharExactly(a[i], b[i]);
    }
  }

  lemma AgreeWordsExactly(v: seq<Word>, w: seq<Word>)
    ensures LowerWords(v) == LowerWords(w) <==> AgreeWords(v, w)
  {
    forall i | 0 <= i < |v| && i < |w| ensures LowerWords(v)[i] == LowerWords(w)[i] <==> AgreeText(v[i].text, w[i].text) {
      AgreeTextExactly(v[i].text, w[i].text);
    }
  }

  /** Two statements get one fingerprint exactly if the words left of them when comments and
      literals are out agree up to the case of ASCII letters. */
  lemma SameFingerprintExactly(a: string, b: string)
    ensures Normalize(a) == Normalize(b) <==> AgreeWords(Words(Content(a)), Words(Content(b)))
  {
    NormalizedText(a);
    NormalizedText(b);
    AgreeWordsExactly(Words(Content(a)), Words(Content(b)));
  }

  /** The normalised text is the lower-cased words joined by blanks. */
  lemma NormalizedText(raw: string)
    ensures var ws := LowerWords(Words(Content(raw))); Normalize(raw) == JoinWords(ws) && Words(Normalize(raw)) == ws
  {
    WordsOfNormalized(raw);
    NormalizeIsNormal(raw);
    NormalIsItsWords(Normalize(raw));
  }

  lemma PlainContent(s: string)
    requires PlainText(s)
    ensures Words(Content(s)) == Words(s)
  {
    var i: nat := StripStart(s);
    var t := Strip(s);
    StrippedIsPlain(s, i, t);
    NothingToDrop(t);
    NothingToReplace(t);
    CuttingKeepsWords(t);
    StripKeepsWords(s);
  }

  lemma StrippedIsPlain(s: string, i: nat, t: string)
    requires PlainText(s) && i + |t| <= |s| && t == s[i..i + |t|]
    ensures PlainText(t)
  {
    SliceComment(s, i, i + |t|);
    SlicePair(s, i, i + |t|, '-', '-');
  }

  /** Statements without quotes and comments: one fingerprint exactly for the same words up to
      the case of ASCII letters. */
  lemma PlainFingerprintExactly(a: string, b: string)
    requires PlainText(a) && PlainText(b)
    ensures Normalize(a) == Normalize(b) <==> AgreeWords(Words(a), Words(b))
  {
    PlainContent(a);
    PlainContent(b);
    SameFingerprintExactly(a, b);
  }

  // ---------- the passes over comments ----------

  lemma FindPairIs(s: string, i: nat, j: nat, a: char, b: char)
    requires i <= j <= |s| && (j < |s| ==> At(s, j, a, b))
    requires forall k :: i <= k < j ==> !At(s, k, a, b)
    ensures FindPair(s, i, a, b) == j
  {
  }

  /** A block comment reads as one blank. */
  lemma CommentAtStart(c: string, q: string)
    requires NoPair(c, '*', '/')
    ensures DropBlockComments("/*" + c + "*/" + q) == " " + DropBlockComments(q)
  {
    var s := "/*" + c + "*/" + q;
    var j := 2 + |c|;
    assert s[j] == '*' && s[j + 1] == '/' && s[j + 2..] == q;
    forall k | 2 <= k < j ensures !At(s, k, '*', '/') {
      assert s[k] == c[k - 2];
      if k + 1 < j {
        assert s[k + 1] == c[k - 1] && !At(c, k - 2, '*', '/');
      }
    }
    FindPairIs(s, 2, j, '*', '/');
    assert At(s, 0, '/', '*');
  }

  lemma {:induction false} CommentIsBlank(p: string, c: string, q: string)
    requires NoPair(p, '/', '*') && NoPair(c, '*', '/')
    ensures DropBlockComments(p + ("/*" + c + "*/" + q)) == p + (" " + DropBlockComments(q))
    decreases |p|
  {
    var rest := "/*" + c + "*/" + q;
    if p == "" {
      assert p + rest == rest && p + (" " + DropBlockComments(q)) == " " + DropBlockComments(q);
      CommentAtStart(c, q);
    } else {
      SuffixPair(p, 1, '/', '*');
      CommentIsBlank(p[1..], c, q);
      PrefixTexts(p, rest, 1);
      assert !At(p, 0, '/', '*');
      assert p == [p[0]] + p[1..];
      TextAssociates([p[0]], p[1..], " " + DropBlockComments(q));
    }
  }

  /** A line comment reads as the blank at its line end. */
  lemma LineCommentIsBlank(p: string, c: string, b: char, q: string)
    requires NoPair(p, '-', '-') && (p != "" ==> p[|p| - 1] != '-')
    requires forall i :: 0 <= i < |p| ==> !IsLineBreak(p[i])
    requires forall i :: 0 <= i < |c| ==> !IsLineBreak(c[i])
    requires IsLineBreak(b) && b != '\r' && q != ""
    ensures DropLineComments(p + "--" + c + [b] + q) == p + " " + DropLineComments(q)
  {
    var line := p + "--" + c;
    var s := line + [b] + q;
    CommentHasNoBreak(p, c);
    FirstLineIs(line, b, q);
    LinesUnfold(s);
    DashesCut(p, c);
  }

  lemma CommentHasNoBreak(p: string, c: string)
    requires forall i :: 0 <= i < |p| ==> !IsLineBreak(p[i])
    requires forall i :: 0 <= i < |c| ==> !IsLineBreak(c[i])
    ensures var line := p + "--" + c; forall i :: 0 <= i < |line| ==> !IsLineBreak(line[i])
  {
  }

  lemma FirstLineIs(line: string, b: char, q: string)
    requires forall i :: 0 <= i < |line| ==> !IsLineBreak(line[i])
    requires IsLineBreak(b) && b != '\r'
    ensures var s := line + [b] + q; s != "" && s[..FirstBreak(s)] == line && AfterBreak(s) == q
  {
    var s := line + [b] + q;
    assert forall i :: 0 <= i < |line| ==> s[i] == line[i];
    assert s[|line|] == b;
    assert s[..|line|] == line && s[|line| + 1..] == q;
  }

  lemma DashesCut(p: string, c: string)
    requires NoPair(p, '-', '-') && (p != "" ==> p[|p| - 1] != '-')
    ensures CutLineComment(p + "--" + c) == p
  {
    var s := p + "--" + c;
    forall k | 0 <= k < |p| ensures !At(s, k, '-', '-') {
      assert s[k] == p[k];
      if k + 1 < |p| { assert s[k + 1] == p[k + 1] && !At(p, k, '-', '-'); }
    }
    assert s[|p|] == '-' && s[|p| + 1] == '-';
    FindPairIs(s, 0, |p|, '-', '-');
    assert s[..|p|] == p;
  }
}
