/** What the SQL normaliser lets through of the literals of a statement. A statement is a list of
    tokens; the proofs look at it character by character, each character marked with the place
    it stands in, because block comments are dropped before literals are read and may begin in
    one place and end in another. */
module FingerprintContent {
  import opened Wrappers
  import opened SqlFingerprint

  // ---------- statements as items ----------

  /** A character outside literals, an opening quote, a character inside a literal (a quote there
      is printed twice), a closing quote. */
  datatype Item = Ch(c: char) | Open(q: char) | In(q: char, c: char) | Close(q: char)

  function PrintItem(x: Item): (s: string)
    ensures 1 <= |s| <= 2
  {
    match x
    case Ch(c) => [c]
    case Open(q) => [q]
    case In(q, c) => DoubledChar(q, c)
    case Close(q) => [q]
  }

  function PrintItems(xs: seq<Item>): string {
    if xs == [] then "" else PrintItem(xs[0]) + PrintItems(xs[1..])
  }

  function PlainItems(text: string): (xs: seq<Item>)
    ensures |xs| == |text|
  {
    seq(|text|, i requires 0 <= i < |text| => Ch(text[i]))
  }

  function InItems(q: char, content: string): (xs: seq<Item>)
    ensures |xs| == |content|
  {
    seq(|content|, i requires 0 <= i < |content| => In(q, content[i]))
  }

  function ItemsOf(t: Token): seq<Item> {
    match t
    case Plain(text) => PlainItems(text)
    case Quoted(q, content) => [Open(q)] + InItems(q, content) + [Close(q)]
  }

  function Items(ts: seq<Token>): seq<Item> {
    if ts == [] then [] else ItemsOf(ts[0]) + Items(ts[1..])
  }

  predicate IsItem(x: Item) {
    match x
    case Ch(c) => !IsQuote(c)
    case Open(q) => IsQuote(q)
    case In(q, _) => IsQuote(q)
    case Close(q) => IsQuote(q)
  }

  predicate AllItems(xs: seq<Item>) {
    forall i :: 0 <= i < |xs| ==> IsItem(xs[i])
  }

  /** The quote of the literal one is in behind the item. */
  function Behind(x: Item): Option<char> {
    match x
    case Open(q) => Some(q)
    case In(q, _) => Some(q)
    case _ => None
  }

  /** The item may stand where the quote of the current literal, if any, is st. */
  predicate Fits(st: Option<char>, x: Item) {
    if x.In? || x.Close? then st == Some(x.q) else st.None?
  }

  /** Well-formed from a place inside or outside a literal on, with no two literals of one quote
      side by side. */
  predicate Formed(st: Option<char>, xs: seq<Item>)
    decreases |xs|
  {
    if xs == [] then st.None?
    else
      && IsItem(xs[0]) && Fits(st, xs[0])
      && !(|xs| > 1 && xs[0].Close? && xs[1] == Open(xs[0].q))
      && Formed(Behind(xs[0]), xs[1..])
  }

  function HoleOf(x: Item): string {
    match x
    case Ch(c) => [c]
    case Open(_) => " ? "
    case _ => ""
  }

  /** The text with a placeholder for each literal. */
  function Holes(xs: seq<Item>): string {
    if xs == [] then "" else HoleOf(xs[0]) + Holes(xs[1..])
  }

  function BareOf(x: Item): seq<Item> {
    match x
    case Ch(c) => [Ch(c)]
    case Open(_) => [Open('\'')]
    case In(_, _) => []
    case Close(_) => [Close('\'')]
  }

  /** The items without what the literals hold; both kinds of quote count as one. */
  function Bare(xs: seq<Item>): seq<Item> {
    if xs == [] then [] else BareOf(xs[0]) + Bare(xs[1..])
  }

  // concatenation

  lemma {:induction false} PrintJoin(x: seq<Item>, y: seq<Item>)
    ensures PrintItems(x + y) == PrintItems(x) + PrintItems(y)
  {
    if x == [] {
      assert x + y == y;
    } else {
      assert (x + y)[1..] == x[1..] + y;
      PrintJoin(x[1..], y);
    }
  }

  lemma {:induction false} HolesJoin(x: seq<Item>, y: seq<Item>)
    ensures Holes(x + y) == Holes(x) + Holes(y)
  {
    if x == [] {
      assert x + y == y;
    } else {
      assert (x + y)[1..] == x[1..] + y;
      HolesJoin(x[1..], y);
    }
  }

  lemma {:induction false} BareJoin(x: seq<Item>, y: seq<Item>)
    ensures Bare(x + y) == Bare(x) + Bare(y)
  {
    if x == [] {
      assert x + y == y;
    } else {
      assert (x + y)[1..] == x[1..] + y;
      BareJoin(x[1..], y);
    }
  }

  lemma One(x: Item)
    ensures PrintItems([x]) == PrintItem(x)
    ensures Holes([x]) == HoleOf(x)
    ensures Bare([x]) == BareOf(x)
  {
    assert [x][1..] == [];
  }

  lemma PrintCons(x: Item, xs: seq<Item>)
    ensures PrintItems([x] + xs) == PrintItem(x) + PrintItems(xs)
  {
    assert ([x] + xs)[1..] == xs;
  }

  // the items of tokens

  lemma {:induction false} PlainItemsAre(text: string)
    ensures PrintItems(PlainItems(text)) == text && Holes(PlainItems(text)) == text && Bare(PlainItems(text)) == PlainItems(text)
    decreases |text|
  {
    if text != "" {
      assert PlainItems(text)[1..] == PlainItems(text[1..]);
      PlainItemsAre(text[1..]);
      assert text == [text[0]] + text[1..];
    }
  }

  lemma {:induction false} InItemsAre(q: char, content: string)
    ensures PrintItems(InItems(q, content)) == Doubled(q, content) && Holes(InItems(q, content)) == "" && Bare(InItems(q, content)) == []
    decreases |content|
  {
    if content != "" {
      assert InItems(q, content)[1..] == InItems(q, content[1..]);
      InItemsAre(q, content[1..]);
    }
  }

  lemma LiteralItems(q: char, content: string)
    ensures var xs := ItemsOf(Quoted(q, content));
      && PrintItems(xs) == PrintToken(Quoted(q, content)) && Holes(xs) == " ? " && Bare(xs) == [Open('\''), Close('\'')]
  {
    var inner := InItems(q, content);
    InItemsAre(q, content);
    One(Open(q));
    One(Close(q));
    PrintJoin([Open(q)] + inner, [Close(q)]);
    PrintJoin([Open(q)], inner);
    HolesJoin([Open(q)] + inner, [Close(q)]);
    HolesJoin([Open(q)], inner);
    BareJoin([Open(q)] + inner, [Close(q)]);
    BareJoin([Open(q)], inner);
  }

  lemma TokenItems(t: Token)
    ensures PrintItems(ItemsOf(t)) == PrintToken(t)
    ensures Holes(ItemsOf(t)) == if t.Plain? then t.text else " ? "
    ensures Bare(ItemsOf(t)) == if t.Plain? then PlainItems(t.text) else [Open('\''), Close('\'')]
  {
    match t
    case Plain(text) => PlainItemsAre(text);
    case Quoted(q, content) => LiteralItems(q, content);
  }

  lemma {:induction false} ItemsPrint(ts: seq<Token>)
    ensures PrintItems(Items(ts)) == PrintTokens(ts) && Holes(Items(ts)) == Shape(ts)
  {
    if ts != [] {
      ItemsPrint(ts[1..]);
      TokenItems(ts[0]);
      PrintJoin(ItemsOf(ts[0]), Items(ts[1..]));
      HolesJoin(ItemsOf(ts[0]), Items(ts[1..]));
    }
  }

  ghost predicate Apart(ts: seq<Token>) {
    forall i: nat :: !Glued(ts, i)
  }

  /** The same tokens but for the literals, which may differ in content and quote. */
  predicate SameToken(x: Token, y: Token) {
    if x.Plain? then x == y else y.Quoted?
  }

  predicate SameButLiterals(a: seq<Token>, b: seq<Token>) {
    |a| == |b| && forall i :: 0 <= i < |a| ==> SameToken(a[i], b[i])
  }

  lemma {:induction false} SameIsBare(a: seq<Token>, b: seq<Token>)
    requires SameButLiterals(a, b)
    ensures Bare(Items(a)) == Bare(Items(b))
  {
    if a != [] {
      assert SameToken(a[0], b[0]);
      SameIsBare(a[1..], b[1..]);
      TokenItems(a[0]);
      TokenItems(b[0]);
      BareJoin(ItemsOf(a[0]), Items(a[1..]));
      BareJoin(ItemsOf(b[0]), Items(b[1..]));
    }
  }

  lemma FormedCons(st: Option<char>, x: Item, xs: seq<Item>)
    requires IsItem(x) && Fits(st, x) && Formed(Behind(x), xs)
    requires x.Close? && xs != [] ==> xs[0] != Open(x.q)
    ensures Formed(st, [x] + xs)
  {
    assert ([x] + xs)[1..] == xs;
  }

  lemma {:induction false} FormedPlain(text: string, xs: seq<Item>)
    requires NoQuote(text) && Formed(None, xs)
    ensures Formed(None, PlainItems(text) + xs)
    decreases |text|
  {
    if text == "" {
      assert PlainItems(text) + xs == xs;
    } else {
      FormedPlain(text[1..], xs);
      FormedCons(None, Ch(text[0]), PlainItems(text[1..]) + xs);
      assert PlainItems(text) + xs == [Ch(text[0])] + (PlainItems(text[1..]) + xs);
    }
  }

  lemma {:induction false} FormedInside(q: char, content: string, xs: seq<Item>)
    requires IsQuote(q) && Formed(None, xs) && (xs != [] ==> xs[0] != Open(q))
    ensures Formed(Some(q), InItems(q, content) + [Close(q)] + xs)
    decreases |content|
  {
    if content == "" {
      FormedCons(Some(q), Close(q), xs);
      assert InItems(q, content) + [Close(q)] + xs == [Close(q)] + xs;
    } else {
      FormedInside(q, content[1..], xs);
      var rest := InItems(q, content[1..]) + [Close(q)] + xs;
      FormedCons(Some(q), In(q, content[0]), rest);
      assert InItems(q, content) + [Close(q)] + xs == [In(q, content[0])] + rest;
    }
  }

  lemma FormedLiteral(q: char, content: string, xs: seq<Item>)
    requires IsQuote(q) && Formed(None, xs) && (xs != [] ==> xs[0] != Open(q))
    ensures Formed(None, ItemsOf(Quoted(q, content)) + xs)
  {
    var rest := InItems(q, content) + [Close(q)] + xs;
    FormedInside(q, content, xs);
    FormedCons(None, Open(q), rest);
    assert ItemsOf(Quoted(q, content)) + xs == [Open(q)] + rest;
  }

  lemma {:induction false} ItemsFormed(ts: seq<Token>)
    requires AreTokens(ts) && Apart(ts)
    ensures Formed(None, Items(ts))
    ensures ts == [] <==> Items(ts) == []
    ensures ts != [] ==> if ts[0].Quoted? then Items(ts)[0] == Open(ts[0].quote) else Items(ts)[0].Ch?
  {
    if ts != [] {
      assert !Glued(ts, 0);
      GluedTail(ts);
      ItemsFormed(ts[1..]);
      match ts[0]
      case Plain(text) => FormedPlain(text, Items(ts[1..]));
      case Quoted(q, content) => FormedLiteral(q, content, Items(ts[1..]));
    }
  }

  lemma {:induction false} FormedItems(st: Option<char>, xs: seq<Item>)
    requires Formed(st, xs)
    ensures AllItems(xs)
    decreases |xs|
  {
    if xs != [] {
      FormedItems(Behind(xs[0]), xs[1..]);
      assert forall i :: 0 < i < |xs| ==> xs[i] == xs[1..][i - 1];
    }
  }

  lemma {:induction false} FormedTail(st: Option<char>, xs: seq<Item>, n: nat)
    requires Formed(st, xs) && 0 < n <= |xs|
    ensures Formed(Behind(xs[n - 1]), xs[n..])
    decreases n
  {
    if n > 1 {
      FormedTail(Behind(xs[0]), xs[1..], n - 1);
      assert xs[1..][n - 1..] == xs[n..] && xs[1..][n - 2] == xs[n - 1];
    }
  }

  // ---------- block comments on items ----------

  function Letter(x: Item): Option<char> {
    match x
    case Ch(c) => Some(c)
    case In(_, c) => Some(c)
    case _ => None
  }

  predicate AtItem(xs: seq<Item>, i: int, a: char, b: char) {
    0 <= i < |xs| - 1 && Letter(xs[i]) == Some(a) && Letter(xs[i + 1]) == Some(b)
  }

  function FindItem(xs: seq<Item>, a: char, b: char): (j: nat)
    ensures j <= |xs| && (j < |xs| ==> AtItem(xs, j, a, b))
  {
    if xs == [] || AtItem(xs, 0, a, b) then 0 else 1 + FindItem(xs[1..], a, b)
  }

  /** A comment begins with the first item and is closed. */
  predicate Opens(xs: seq<Item>) {
    AtItem(xs, 0, '/', '*') && FindItem(xs[2..], '*', '/') < |xs| - 2
  }

  /** The number of items such a comment takes. */
  function End(xs: seq<Item>): (n: nat)
    requires Opens(xs)
    ensures 4 <= n <= |xs| && AtItem(xs, n - 2, '*', '/')
  {
    var u := xs[2..];
    var f := FindItem(u, '*', '/');
    assert |u| == |xs| - 2 && AtItem(u, f, '*', '/');
    assert u[f] == xs[f + 2] && u[f + 1] == xs[f + 3];
    f + 4
  }

  /** The blank a comment leaves, in the place where the comment began. */
  function Blank(x: Item): Item {
    if x.In? then In(x.q, ' ') else Ch(' ')
  }

  function DropItems(xs: seq<Item>): seq<Item>
    decreases |xs|
  {
    if xs == [] then []
    else if Opens(xs) then [Blank(xs[0])] + DropItems(xs[End(xs)..])
    else [xs[0]] + DropItems(xs[1..])
  }

  lemma MarkFirst(x: Item, m: char)
    requires IsItem(x) && Mark(m)
    ensures PrintItem(x)[0] == m <==> Letter(x) == Some(m)
    ensures PrintItem(x)[0] == m ==> PrintItem(x) == [m]
    ensures |PrintItem(x)| == 2 ==> PrintItem(x)[1] != m
  {
  }

  lemma SecondChar(head: string, tail: string)
    requires |head| == 1 && tail != ""
    ensures |head + tail| >= 2 && (head + tail)[1] == tail[0]
  {
  }

  lemma FirstPair(xs: seq<Item>, a: char, b: char)
    requires AllItems(xs) && xs != [] && Mark(a) && Mark(b)
    ensures At(PrintItems(xs), 0, a, b) <==> AtItem(xs, 0, a, b)
  {
    var head, tail := PrintItem(xs[0]), PrintItems(xs[1..]);
    MarkFirst(xs[0], a);
    MarkFirst(xs[0], b);
    assert PrintItems(xs) == head + tail && (head + tail)[0] == head[0];
    if Letter(xs[0]) == Some(a) && |xs| > 1 {
      MarkFirst(xs[1], b);
      assert tail == PrintItem(xs[1]) + PrintItems(xs[1..][1..]);
      SecondChar(head, tail);
    }
  }

  lemma HeadFree(xs: seq<Item>, a: char, b: char)
    requires AllItems(xs) && xs != [] && Mark(a) && Mark(b) && !AtItem(xs, 0, a, b)
    ensures forall k :: 0 <= k < |PrintItem(xs[0])| ==> !At(PrintItems(xs), k, a, b)
  {
    var head := PrintItem(xs[0]);
    FirstPair(xs, a, b);
    MarkFirst(xs[0], a);
    assert |head| == 2 ==> PrintItems(xs)[1] == head[1];
  }

  lemma FindShift(s: string, i: nat, j: nat, a: char, b: char)
    requires i + j <= |s|
    ensures FindPair(s, i + j, a, b) == i + FindPair(s[i..], j, a, b)
    decreases |s| - j
  {
    if i + j < |s| {
      assert At(s, i + j, a, b) <==> At(s[i..], j, a, b);
      FindShift(s, i, j + 1, a, b);
    }
  }

  lemma FindOver(s: string, i: nat, n: nat, a: char, b: char)
    requires i <= n <= |s| && forall k :: i <= k < n ==> !At(s, k, a, b)
    ensures FindPair(s, i, a, b) == FindPair(s, n, a, b)
    decreases n - i
  {
    if i < n {
      FindOver(s, i + 1, n, a, b);
    }
  }

  lemma FindPastFirst(s: string, n: nat, a: char, b: char)
    requires n <= |s| && forall k :: 0 <= k < n ==> !At(s, k, a, b)
    ensures FindPair(s, 0, a, b) == n + FindPair(s[n..], 0, a, b)
  {
    FindOver(s, 0, n, a, b);
    FindShift(s, n, 0, a, b);
  }

  lemma {:induction false} FindPrinted(xs: seq<Item>)
    requires AllItems(xs)
    ensures FindPair(PrintItems(xs), 0, '*', '/') == |PrintItems(xs[..FindItem(xs, '*', '/')])|
    decreases |xs|
  {
    if xs != [] {
      var s, head := PrintItems(xs), PrintItem(xs[0]);
      FirstPair(xs, '*', '/');
      if AtItem(xs, 0, '*', '/') {
        assert xs[..0] == [];
      } else {
        FindPrinted(xs[1..]);
        HeadFree(xs, '*', '/');
        assert s[|head|..] == PrintItems(xs[1..]);
        FindPastFirst(s, |head|, '*', '/');
        var f := FindItem(xs[1..], '*', '/');
        assert xs[..1 + f] == [xs[0]] + xs[1..][..f];
        PrintCons(xs[0], xs[1..][..f]);
      }
    }
  }

  lemma {:induction false} DropOver(head: string, rest: string)
    requires forall k :: 0 <= k < |head| ==> !At(head + rest, k, '/', '*')
    ensures DropBlockComments(head + rest) == head + DropBlockComments(rest)
    decreases |head|
  {
    if head == "" {
      assert head + rest == rest;
    } else {
      var s := head + rest;
      assert s[1..] == head[1..] + rest;
      forall k | 0 <= k < |head[1..]| ensures !At(head[1..] + rest, k, '/', '*') {
        assert !At(s, k + 1, '/', '*');
      }
      DropOver(head[1..], rest);
      assert !At(s, 0, '/', '*');
      assert head == [head[0]] + head[1..];
      TextAssociates([head[0]], head[1..], DropBlockComments(rest));
    }
  }

  lemma MarkPrint(x: Item, m: char)
    requires IsItem(x) && Mark(m) && Letter(x) == Some(m)
    ensures PrintItem(x) == [m]
  {
  }

  lemma SplitPair<T>(xs: seq<T>, f: nat)
    requires f + 1 < |xs|
    ensures xs == xs[..f] + ([xs[f]] + ([xs[f + 1]] + xs[f + 2..]))
  {
  }

  lemma PrintPair(xs: seq<Item>, f: nat, a: char, b: char)
    requires AllItems(xs) && AtItem(xs, f, a, b) && Mark(a) && Mark(b)
    ensures PrintItems(xs) == PrintItems(xs[..f]) + [a, b] + PrintItems(xs[f + 2..])
  {
    var front, rest := xs[..f], xs[f + 2..];
    SplitPair(xs, f);
    PrintJoin(front, [xs[f]] + ([xs[f + 1]] + rest));
    PrintCons(xs[f], [xs[f + 1]] + rest);
    PrintCons(xs[f + 1], rest);
    MarkPrint(xs[f], a);
    MarkPrint(xs[f + 1], b);
    TextAssociates([a], [b], PrintItems(rest));
    TextAssociates(PrintItems(front), [a, b], PrintItems(rest));
  }

  lemma OpeningPrinted(xs: seq<Item>)
    requires AllItems(xs) && AtItem(xs, 0, '/', '*')
    ensures At(PrintItems(xs), 0, '/', '*') && PrintItems(xs)[2..] == PrintItems(xs[2..])
  {
    FirstPair(xs, '/', '*');
    PrintPair(xs, 0, '/', '*');
    assert xs[..0] == [];
  }

  lemma AfterMiddle(s: string, p: string, m: string, r: string)
    requires s == p + m + r && m != ""
    ensures |p| < |s| && |p| + |m| <= |s| && s[|p| + |m|..] == r
  {
  }

  lemma FoundPrinted(xs: seq<Item>)
    requires AllItems(xs) && FindItem(xs, '*', '/') < |xs|
    ensures var s := PrintItems(xs); var j := FindPair(s, 0, '*', '/');
      j + 2 <= |s| && s[j + 2..] == PrintItems(xs[FindItem(xs, '*', '/') + 2..])
  {
    var f := FindItem(xs, '*', '/');
    FindPrinted(xs);
    PrintPair(xs, f, '*', '/');
    AfterMiddle(PrintItems(xs), PrintItems(xs[..f]), ['*', '/'], PrintItems(xs[f + 2..]));
  }

  lemma ClosingPrinted(xs: seq<Item>)
    requires AllItems(xs)
    ensures var s, f := PrintItems(xs), FindItem(xs, '*', '/');
      && (FindPair(s, 0, '*', '/') < |s| <==> f < |xs|)
      && (f < |xs| ==> s[FindPair(s, 0, '*', '/') + 2..] == PrintItems(xs[f + 2..]))
  {
    if FindItem(xs, '*', '/') < |xs| {
      FoundPrinted(xs);
    } else {
      FindPrinted(xs);
      assert xs[..|xs|] == xs;
    }
  }

  lemma TailOfTail<T>(s: seq<T>, i: nat, j: nat)
    requires i + j <= |s|
    ensures s[i..][j..] == s[i + j..]
  {
  }

  lemma ClosedBehind(s: string, u: seq<Item>, end: nat)
    requires AllItems(u) && |s| >= 2 && s[2..] == PrintItems(u) && end == 2 + FindPair(s[2..], 0, '*', '/')
    ensures var f := FindItem(u, '*', '/');
      (end < |s| <==> f < |u|) && (f < |u| ==> end + 2 <= |s| && s[end + 2..] == PrintItems(u[f + 2..]))
  {
    ClosingPrinted(u);
    if FindItem(u, '*', '/') < |u| {
      TailOfTail(s, 2, end);
    }
  }

  /** Whether and where a comment at the front closes, read off what stands behind its opening. */
  lemma OpensBefore(xs: seq<Item>, u: seq<Item>)
    requires AtItem(xs, 0, '/', '*') && u == xs[2..]
    ensures Opens(xs) <==> FindItem(u, '*', '/') < |u|
    ensures Opens(xs) ==> xs[End(xs)..] == u[FindItem(u, '*', '/') + 2..]
  {
    if FindItem(u, '*', '/') < |u| {
      TailOfTail(xs, 2, FindItem(u, '*', '/') + 2);
    }
  }

  /** An opening at the front: whether and where it closes, in the text as in the items. */
  lemma CommentPrinted(xs: seq<Item>)
    requires AllItems(xs) && AtItem(xs, 0, '/', '*')
    ensures var s := PrintItems(xs);
      && At(s, 0, '/', '*')
      && (FindPair(s, 2, '*', '/') < |s| <==> Opens(xs))
      && (Opens(xs) ==> s[FindPair(s, 2, '*', '/') + 2..] == PrintItems(xs[End(xs)..]))
  {
    var s, u := PrintItems(xs), xs[2..];
    OpeningPrinted(xs);
    FindShift(s, 2, 0, '*', '/');
    ClosedBehind(s, u, FindPair(s, 2, '*', '/'));
    OpensBefore(xs, u);
  }

  lemma UnclosedKept(xs: seq<Item>)
    requires AllItems(xs) && AtItem(xs, 0, '/', '*') && !Opens(xs)
    ensures DropBlockComments(PrintItems(xs)) == PrintItem(xs[0]) + DropBlockComments(PrintItems(xs[1..]))
  {
    CommentPrinted(xs);
    MarkPrint(xs[0], '/');
    assert PrintItems(xs)[1..] == PrintItems(xs[1..]);
  }

  lemma NoOpeningKept(xs: seq<Item>)
    requires AllItems(xs) && xs != [] && !AtItem(xs, 0, '/', '*')
    ensures DropBlockComments(PrintItems(xs)) == PrintItem(xs[0]) + DropBlockComments(PrintItems(xs[1..]))
  {
    HeadFree(xs, '/', '*');
    assert PrintItems(xs) == PrintItem(xs[0]) + PrintItems(xs[1..]);
    DropOver(PrintItem(xs[0]), PrintItems(xs[1..]));
  }

  lemma FirstKept(xs: seq<Item>)
    requires AllItems(xs) && xs != [] && !Opens(xs)
    ensures DropBlockComments(PrintItems(xs)) == PrintItem(xs[0]) + DropBlockComments(PrintItems(xs[1..]))
  {
    if AtItem(xs, 0, '/', '*') {
      UnclosedKept(xs);
    } else {
      NoOpeningKept(xs);
    }
  }

  lemma FirstCommentDropped(xs: seq<Item>)
    requires AllItems(xs) && Opens(xs)
    ensures DropBlockComments(PrintItems(xs)) == " " + DropBlockComments(PrintItems(xs[End(xs)..]))
  {
    CommentPrinted(xs);
  }

  lemma BlankPrint(xs: seq<Item>)
    requires AllItems(xs) && Opens(xs)
    ensures PrintItem(Blank(xs[0])) == " "
  {
  }

  lemma AllItemsTail(xs: seq<Item>, n: nat)
    requires AllItems(xs) && n <= |xs|
    ensures AllItems(xs[n..])
  {
  }

  lemma {:induction false} DropPrinted(xs: seq<Item>)
    requires AllItems(xs)
    ensures DropBlockComments(PrintItems(xs)) == PrintItems(DropItems(xs))
    decreases |xs|
  {
    if xs == [] {
    } else if Opens(xs) {
      var n := End(xs);
      AllItemsTail(xs, n);
      DropPrinted(xs[n..]);
      FirstCommentDropped(xs);
      BlankPrint(xs);
      PrintCons(Blank(xs[0]), DropItems(xs[n..]));
    } else {
      AllItemsTail(xs, 1);
      DropPrinted(xs[1..]);
      FirstKept(xs);
      PrintCons(xs[0], DropItems(xs[1..]));
    }
  }

  // ---------- where comments begin and end ----------

  /** The comment at the front ends in the literal it begins in, or begins and ends outside
      literals. */
  predicate Whole(xs: seq<Item>)
    requires Opens(xs)
  {
    if xs[0].In? then forall i :: 0 <= i < End(xs) ==> xs[i].In? else xs[End(xs) - 1].Ch?
  }

  /** No comment begins inside a literal and ends outside it, or the other way round. */
  predicate Contained(xs: seq<Item>)
    decreases |xs|
  {
    xs == [] || if Opens(xs) then Whole(xs) && Contained(xs[End(xs)..]) else Contained(xs[1..])
  }

  /** Each comment ends where its beginning may stand: outside literals, or in one of the same
      quote. */
  predicate Even(xs: seq<Item>)
    decreases |xs|
  {
    xs == [] || if Opens(xs) then Behind(xs[End(xs) - 1]) == Behind(xs[0]) && Even(xs[End(xs)..]) else Even(xs[1..])
  }

  lemma {:induction false} RunInside(st: Option<char>, xs: seq<Item>, n: nat)
    requires Formed(st, xs) && 0 < n <= |xs| && forall i :: 0 <= i < n ==> xs[i].In?
    ensures Behind(xs[n - 1]) == Behind(xs[0])
    decreases n
  {
    if n > 1 {
      RunInside(Behind(xs[0]), xs[1..], n - 1);
      assert xs[1..][n - 2] == xs[n - 1] && xs[1..][0] == xs[1];
    }
  }

  lemma {:induction false} ContainedIsEven(st: Option<char>, xs: seq<Item>)
    requires Formed(st, xs) && Contained(xs)
    ensures Even(xs)
    decreases |xs|
  {
    if xs == [] {
    } else if Opens(xs) {
      FormedTail(st, xs, End(xs));
      ContainedIsEven(Behind(xs[End(xs) - 1]), xs[End(xs)..]);
      if xs[0].In? {
        RunInside(st, xs, End(xs));
      }
    } else {
      ContainedIsEven(Behind(xs[0]), xs[1..]);
    }
  }

  /** Dropping such comments leaves a well-formed list. */
  lemma {:induction false} DropFormed(st: Option<char>, xs: seq<Item>)
    requires Formed(st, xs) && Even(xs)
    ensures Formed(st, DropItems(xs))
    ensures DropItems(xs) == [] <==> xs == []
    ensures xs != [] && DropItems(xs)[0].Open? ==> DropItems(xs)[0] == xs[0]
    decreases |xs|
  {
    if xs == [] {
    } else if Opens(xs) {
      FormedTail(st, xs, End(xs));
      DropFormed(Behind(xs[0]), xs[End(xs)..]);
      FormedCons(st, Blank(xs[0]), DropItems(xs[End(xs)..]));
    } else {
      DropFormed(Behind(xs[0]), xs[1..]);
      FormedCons(st, xs[0], DropItems(xs[1..]));
    }
  }

  // ---------- literals ----------

  lemma QuoteAfter(q: char, rest: seq<Item>)
    requires Formed(None, rest) && IsQuote(q) && (rest != [] ==> rest[0] != Open(q))
    ensures PrintItems(rest) == "" || PrintItems(rest)[0] != q
  {
  }

  lemma CloseEnds(q: char, xs: seq<Item>)
    requires Formed(Some(q), xs) && xs[0].Close?
    ensures var s := PrintItems(xs); s[LiteralEnd(s, q, 0)..] == PrintItems(xs[1..])
  {
    QuoteAfter(q, xs[1..]);
    assert PrintItems(xs) == [q] + PrintItems(xs[1..]);
    assert LiteralEnd(PrintItems(xs), q, 0) == 1;
  }

  lemma InsideGoesOn(q: char, xs: seq<Item>)
    requires Formed(Some(q), xs) && !xs[0].Close?
    ensures var s, tail := PrintItems(xs), PrintItems(xs[1..]); s[LiteralEnd(s, q, 0)..] == tail[LiteralEnd(tail, q, 0)..]
  {
    var s, tail, head := PrintItems(xs), PrintItems(xs[1..]), PrintItem(xs[0]);
    assert s == head + tail && s[|head|..] == tail;
    assert LiteralEnd(s, q, 0) == LiteralEnd(s, q, |head|);
    LiteralEndShift(s, |head|, q, 0);
    TailOfTail(s, |head|, LiteralEnd(tail, q, 0));
  }

  lemma HolesInside(q: char, xs: seq<Item>)
    requires Formed(Some(q), xs)
    ensures Holes(xs) == Holes(xs[1..]) && Formed(Behind(xs[0]), xs[1..]) && Behind(xs[0]) == if xs[0].Close? then None else Some(q)
  {
    assert "" + Holes(xs[1..]) == Holes(xs[1..]);
  }

  /** Where a literal ends, seen from inside it. */
  lemma {:induction false} EndOfLiteral(q: char, xs: seq<Item>) returns (rest: seq<Item>)
    requires Formed(Some(q), xs)
    ensures PrintItems(xs)[LiteralEnd(PrintItems(xs), q, 0)..] == PrintItems(rest)
    ensures Formed(None, rest) && Holes(rest) == Holes(xs) && |rest| < |xs|
    decreases |xs|
  {
    HolesInside(q, xs);
    if xs[0].Close? {
      CloseEnds(q, xs);
      rest := xs[1..];
    } else {
      InsideGoesOn(q, xs);
      rest := EndOfLiteral(q, xs[1..]);
    }
  }

  lemma ScanQuote(q: char, tail: string)
    requires IsQuote(q)
    ensures ReplaceLiterals([q] + tail) == " ? " + ReplaceLiterals(tail[LiteralEnd(tail, q, 0)..])
  {
    var s := [q] + tail;
    assert s[1..] == tail;
    LiteralEndShift(s, 1, q, 0);
    TailOfTail(s, 1, LiteralEnd(tail, q, 0));
  }

  lemma ScanOpen(q: char, xs: seq<Item>, rest: seq<Item>)
    requires xs != [] && xs[0] == Open(q) && IsQuote(q)
    requires var tail := PrintItems(xs[1..]); tail[LiteralEnd(tail, q, 0)..] == PrintItems(rest)
    ensures ReplaceLiterals(PrintItems(xs)) == " ? " + ReplaceLiterals(PrintItems(rest))
  {
    ScanQuote(q, PrintItems(xs[1..]));
  }

  lemma ScanChar(xs: seq<Item>)
    requires xs != [] && xs[0].Ch? && IsItem(xs[0])
    ensures ReplaceLiterals(PrintItems(xs)) == [xs[0].c] + ReplaceLiterals(PrintItems(xs[1..]))
  {
    assert PrintItems(xs)[1..] == PrintItems(xs[1..]);
  }

  /** The scanner finds the literals of a well-formed list. */
  lemma {:induction false} ScanItems(xs: seq<Item>)
    requires Formed(None, xs)
    ensures ReplaceLiterals(PrintItems(xs)) == Holes(xs)
    decreases |xs|
  {
    if xs != [] {
      match xs[0]
      case Ch(_) =>
        ScanChar(xs);
        ScanItems(xs[1..]);
      case Open(q) =>
        var rest := EndOfLiteral(q, xs[1..]);
        ScanOpen(q, xs, rest);
        ScanItems(rest);
    }
  }

  lemma AfterTwoPasses(xs: seq<Item>)
    requires Formed(None, xs) && Even(xs)
    ensures ReplaceLiterals(DropBlockComments(PrintItems(xs))) == Holes(DropItems(xs))
  {
    FormedItems(None, xs);
    DropPrinted(xs);
    DropFormed(None, xs);
    ScanItems(DropItems(xs));
  }

  // ---------- content does not show ----------

  lemma HoleOfBare(x: Item)
    ensures Holes(BareOf(x)) == HoleOf(x)
  {
    One(Open('\''));
    One(Close('\''));
    One(x);
  }

  lemma {:induction false} HolesBare(xs: seq<Item>)
    ensures Holes(Bare(xs)) == Holes(xs)
  {
    if xs != [] {
      HolesBare(xs[1..]);
      HoleOfBare(xs[0]);
      HolesJoin(BareOf(xs[0]), Bare(xs[1..]));
    }
  }

  lemma BareTail(xs: seq<Item>)
    requires xs != [] && !xs[0].In?
    ensures Bare(xs) == [BareOf(xs[0])[0]] + Bare(xs[1..]) && Bare(xs)[1..] == Bare(xs[1..])
  {
  }

  lemma BarePair(st: Option<char>, xs: seq<Item>, a: char, b: char)
    requires Formed(st, xs) && xs != [] && !xs[0].In?
    ensures AtItem(Bare(xs), 0, a, b) <==> AtItem(xs, 0, a, b)
  {
    BareTail(xs);
    if xs[0].Ch? && |xs| > 1 {
      assert !xs[1].In?;
      BareTail(xs[1..]);
    }
  }

  lemma FindBareStep(st: Option<char>, xs: seq<Item>)
    requires Formed(st, xs) && xs != [] && !AtItem(xs, 0, '*', '/')
    ensures FindItem(Bare(xs), '*', '/') == |BareOf(xs[0])| + FindItem(Bare(xs[1..]), '*', '/')
  {
    if xs[0].In? {
      assert Bare(xs) == Bare(xs[1..]);
    } else {
      BarePair(st, xs, '*', '/');
      BareTail(xs);
    }
  }

  lemma BareTake(xs: seq<Item>, f: nat)
    requires 0 < f <= |xs|
    ensures |Bare(xs[..f])| == |BareOf(xs[0])| + |Bare(xs[1..][..f - 1])|
  {
    assert xs[..f] == [xs[0]] + xs[1..][..f - 1];
    BareJoin([xs[0]], xs[1..][..f - 1]);
    One(xs[0]);
  }

  lemma FindBareHere(st: Option<char>, xs: seq<Item>)
    requires Formed(st, xs) && AtItem(xs, 0, '*', '/') && xs[0].Ch?
    ensures FindItem(Bare(xs), '*', '/') == 0 && FindItem(xs, '*', '/') == 0
  {
    BarePair(st, xs, '*', '/');
  }

  lemma FindTail(xs: seq<Item>)
    requires xs != [] && !AtItem(xs, 0, '*', '/')
    ensures var f, g := FindItem(xs, '*', '/'), FindItem(xs[1..], '*', '/');
      f == 1 + g && (f < |xs| <==> g < |xs[1..]|) && (f < |xs| ==> xs[f] == xs[1..][g])
  {
  }

  /** The first closing outside literals is the first one of the bare list, unless the full list
      closes inside a literal before. */
  lemma {:induction false} FindBare(st: Option<char>, xs: seq<Item>)
    requires Formed(st, xs)
    requires var f := FindItem(xs, '*', '/'); f < |xs| ==> xs[f].Ch?
    ensures FindItem(Bare(xs), '*', '/') == |Bare(xs[..FindItem(xs, '*', '/')])|
    decreases |xs|
  {
    if xs == [] {
    } else if AtItem(xs, 0, '*', '/') {
      FindBareHere(st, xs);
      assert xs[..0] == [];
    } else {
      FindTail(xs);
      FindBare(Behind(xs[0]), xs[1..]);
      FindBareStep(st, xs);
      BareTake(xs, FindItem(xs, '*', '/'));
    }
  }

  lemma BareAround(xs: seq<Item>, f: nat, a: char, b: char)
    requires AtItem(xs, f, a, b) && xs[f].Ch? && xs[f + 1].Ch?
    ensures Bare(xs) == Bare(xs[..f]) + [Ch(a), Ch(b)] + Bare(xs[f + 2..])
  {
    assert xs == xs[..f] + ([Ch(a), Ch(b)] + xs[f + 2..]);
    BareJoin(xs[..f], [Ch(a), Ch(b)] + xs[f + 2..]);
    BareJoin([Ch(a), Ch(b)], xs[f + 2..]);
    assert [Ch(a), Ch(b)] == [Ch(a)] + [Ch(b)];
    BareJoin([Ch(a)], [Ch(b)]);
    One(Ch(a));
    One(Ch(b));
  }

  lemma BareTwo(st: Option<char>, xs: seq<Item>)
    requires Formed(st, xs) && xs != [] && xs[0].Ch? && AtItem(xs, 0, '/', '*')
    ensures AtItem(Bare(xs), 0, '/', '*') && Bare(xs)[2..] == Bare(xs[2..]) && Formed(None, xs[2..])
  {
    FormedTail(st, xs, 2);
    BarePair(st, xs, '/', '*');
    BareTail(xs);
    BareTail(xs[1..]);
  }

  /** The closing of the bare list, when that of the full list lies outside literals. */
  lemma BareCloses(u: seq<Item>)
    requires Formed(None, u)
    requires var f := FindItem(u, '*', '/'); f < |u| ==> u[f].Ch? && u[f + 1].Ch?
    ensures var f, g := FindItem(u, '*', '/'), FindItem(Bare(u), '*', '/');
      (f < |u| <==> g < |Bare(u)|) && (f < |u| ==> Bare(u)[g + 2..] == Bare(u[f + 2..]))
  {
    var f := FindItem(u, '*', '/');
    FindBare(None, u);
    if f < |u| {
      BareAround(u, f, '*', '/');
    } else {
      assert u[..f] == u;
    }
  }

  lemma ClosingOutside(st: Option<char>, xs: seq<Item>)
    requires Formed(st, xs) && Opens(xs) && xs[End(xs) - 1].Ch?
    ensures var u, f := xs[2..], FindItem(xs[2..], '*', '/');
      f < |u| && u[f].Ch? && u[f + 1].Ch? && u[f + 2..] == xs[End(xs)..]
  {
    var f := FindItem(xs[2..], '*', '/');
    FormedTail(st, xs, f + 3);
    assert xs[2..][f] == xs[f + 2] && xs[2..][f + 1] == xs[f + 3];
    TailOfTail(xs, 2, f + 2);
  }

  /** The bare list has the comment that begins at the front, outside literals. */
  lemma BareOpens(st: Option<char>, xs: seq<Item>)
    requires Formed(st, xs) && xs != [] && xs[0].Ch? && AtItem(xs, 0, '/', '*')
    requires Opens(xs) ==> xs[End(xs) - 1].Ch?
    ensures Opens(Bare(xs)) <==> Opens(xs)
    ensures Opens(xs) ==> Bare(xs)[End(Bare(xs))..] == Bare(xs[End(xs)..])
  {
    var u := xs[2..];
    BareTwo(st, xs);
    if Opens(xs) {
      ClosingOutside(st, xs);
    }
    BareCloses(u);
    OpensBefore(xs, u);
    OpensBefore(Bare(xs), Bare(u));
  }

  /** What contained comments leave depends on the bare list only. */
  lemma {:induction false} DropBare(st: Option<char>, xs: seq<Item>)
    requires Formed(st, xs) && Contained(xs)
    ensures Bare(DropItems(xs)) == DropItems(Bare(xs))
    decreases |xs|
  {
    if xs == [] {
    } else if Opens(xs) {
      FormedTail(st, xs, End(xs));
      DropBare(Behind(xs[End(xs) - 1]), xs[End(xs)..]);
      BareJoin([Blank(xs[0])], DropItems(xs[End(xs)..]));
      One(Blank(xs[0]));
      if xs[0].In? {
        BareInside(xs, End(xs));
      } else {
        BareOpens(st, xs);
      }
    } else {
      DropBare(Behind(xs[0]), xs[1..]);
      BareJoin([xs[0]], DropItems(xs[1..]));
      One(xs[0]);
      BareKept(st, xs);
    }
  }

  lemma {:induction false} BareInside(xs: seq<Item>, n: nat)
    requires n <= |xs| && forall i :: 0 <= i < n ==> xs[i].In?
    ensures Bare(xs) == Bare(xs[n..])
    decreases n
  {
    if n > 0 {
      BareInside(xs[1..], n - 1);
      assert xs[1..][n - 1..] == xs[n..];
    } else {
      assert xs[0..] == xs;
    }
  }

  lemma BareKept(st: Option<char>, xs: seq<Item>)
    requires Formed(st, xs) && xs != [] && !Opens(xs)
    ensures DropItems(Bare(xs)) == BareOf(xs[0]) + DropItems(Bare(xs[1..]))
  {
    if xs[0].In? {
      assert Bare(xs) == Bare(xs[1..]);
    } else {
      BareTail(xs);
      BarePair(st, xs, '/', '*');
      if AtItem(xs, 0, '/', '*') {
        BareOpens(st, xs);
      }
    }
  }

  lemma BareDecides(x: seq<Item>, y: seq<Item>)
    requires Formed(None, x) && Formed(None, y) && Contained(x) && Contained(y) && Bare(x) == Bare(y)
    ensures ReplaceLiterals(DropBlockComments(PrintItems(x))) == ReplaceLiterals(DropBlockComments(PrintItems(y)))
  {
    ContainedIsEven(None, x);
    ContainedIsEven(None, y);
    AfterTwoPasses(x);
    AfterTwoPasses(y);
    DropBare(None, x);
    DropBare(None, y);
    HolesBare(DropItems(x));
    HolesBare(DropItems(y));
  }

  // ---------- the ends of the statement ----------

  predicate BlankItem(x: Item) {
    x.Ch? && IsSpace(x.c)
  }

  function LeftItems(xs: seq<Item>): (r: seq<Item>)
    ensures |r| <= |xs| && r == xs[|xs| - |r|..]
  {
    if xs != [] && BlankItem(xs[0]) then LeftItems(xs[1..]) else xs
  }

  function RightItems(xs: seq<Item>): (r: seq<Item>)
    ensures |r| <= |xs| && r == xs[..|r|]
  {
    if xs != [] && BlankItem(xs[|xs| - 1]) then RightItems(xs[..|xs| - 1]) else xs
  }

  /** The items of the stripped statement. */
  function Stripped(xs: seq<Item>): seq<Item> {
    RightItems(LeftItems(xs))
  }

  lemma FirstPrinted(xs: seq<Item>)
    requires Formed(None, xs) && xs != []
    ensures var s := PrintItems(xs);
      s != "" && s[1..] == PrintItems(xs[1..]) && (IsSpace(s[0]) <==> BlankItem(xs[0]))
  {
    var head := PrintItem(xs[0]);
    assert PrintItems(xs) == head + PrintItems(xs[1..]) && |head| == 1;
  }

  lemma {:induction false} LeftPrinted(xs: seq<Item>)
    requires Formed(None, xs)
    ensures StripLeft(PrintItems(xs)) == PrintItems(LeftItems(xs)) && Formed(None, LeftItems(xs))
    decreases |xs|
  {
    if xs != [] {
      FirstPrinted(xs);
      if BlankItem(xs[0]) {
        LeftPrinted(xs[1..]);
      }
    }
  }

  lemma {:induction false} FormedInit(st: Option<char>, xs: seq<Item>)
    requires Formed(st, xs) && xs != [] && xs[|xs| - 1].Ch?
    ensures Formed(st, xs[..|xs| - 1])
    decreases |xs|
  {
    if |xs| > 1 {
      FormedInit(Behind(xs[0]), xs[1..]);
      var init := xs[1..][..|xs| - 2];
      assert xs[..|xs| - 1] == [xs[0]] + init;
      FormedCons(st, xs[0], init);
    }
  }

  lemma {:induction false} LastItem(st: Option<char>, xs: seq<Item>)
    requires Formed(st, xs) && xs != []
    ensures xs[|xs| - 1].Ch? || xs[|xs| - 1].Close?
    ensures IsItem(xs[|xs| - 1])
    decreases |xs|
  {
    if |xs| > 1 {
      LastItem(Behind(xs[0]), xs[1..]);
    }
  }

  lemma LastPrinted(xs: seq<Item>)
    requires Formed(None, xs) && xs != []
    ensures var n, s, last := |xs| - 1, PrintItems(xs), PrintItem(xs[|xs| - 1]);
      && s == PrintItems(xs[..n]) + last && |last| == 1
      && (IsSpace(last[0]) <==> BlankItem(xs[n]))
  {
    var n := |xs| - 1;
    LastItem(None, xs);
    assert xs == xs[..n] + [xs[n]];
    PrintJoin(xs[..n], [xs[n]]);
    One(xs[n]);
  }

  lemma {:induction false} RightPrinted(xs: seq<Item>)
    requires Formed(None, xs)
    ensures StripRight(PrintItems(xs)) == PrintItems(RightItems(xs)) && Formed(None, RightItems(xs))
    decreases |xs|
  {
    if xs != [] {
      var n, s := |xs| - 1, PrintItems(xs);
      LastPrinted(xs);
      if BlankItem(xs[n]) {
        assert s[..|s| - 1] == PrintItems(xs[..n]);
        FormedInit(None, xs);
        RightPrinted(xs[..n]);
      }
    }
  }

  lemma StrippedPrinted(xs: seq<Item>)
    requires Formed(None, xs)
    ensures Strip(PrintItems(xs)) == PrintItems(Stripped(xs)) && Formed(None, Stripped(xs))
  {
    LeftPrinted(xs);
    RightPrinted(LeftItems(xs));
  }

  lemma {:induction false} LeftBare(xs: seq<Item>)
    requires Formed(None, xs)
    ensures Bare(LeftItems(xs)) == LeftItems(Bare(xs))
    decreases |xs|
  {
    if xs != [] {
      BareTail(xs);
      if BlankItem(xs[0]) {
        LeftBare(xs[1..]);
      }
    }
  }

  lemma BareLast(xs: seq<Item>)
    requires Formed(None, xs) && xs != []
    ensures var n, bare := |xs| - 1, Bare(xs);
      && bare != [] && bare[..|bare| - 1] == Bare(xs[..n])
      && (BlankItem(bare[|bare| - 1]) <==> BlankItem(xs[n]))
  {
    var n := |xs| - 1;
    LastItem(None, xs);
    assert xs == xs[..n] + [xs[n]];
    BareJoin(xs[..n], [xs[n]]);
    One(xs[n]);
  }

  lemma {:induction false} RightBare(xs: seq<Item>)
    requires Formed(None, xs)
    ensures Bare(RightItems(xs)) == RightItems(Bare(xs))
    decreases |xs|
  {
    if xs != [] {
      BareLast(xs);
      if BlankItem(xs[|xs| - 1]) {
        FormedInit(None, xs);
        RightBare(xs[..|xs| - 1]);
      }
    }
  }

  lemma StrippedBare(x: seq<Item>, y: seq<Item>)
    requires Formed(None, x) && Formed(None, y) && Bare(x) == Bare(y)
    ensures Bare(Stripped(x)) == Bare(Stripped(y))
  {
    LeftPrinted(x);
    LeftPrinted(y);
    LeftBare(x);
    LeftBare(y);
    RightBare(LeftItems(x));
    RightBare(LeftItems(y));
  }

  lemma BareEmpty(xs: seq<Item>)
    requires Formed(None, xs)
    ensures xs == [] <==> Bare(xs) == []
    ensures xs == [] <==> PrintItems(xs) == ""
  {
  }

  // ---------- the normaliser ----------

  /** No block comment of the statement begins inside a literal and ends outside it, or the other
      way round: comments within one literal, and comments with whole literals in them, are fine. */
  predicate CommentsContained(ts: seq<Token>) {
    Contained(Stripped(Items(ts)))
  }

  /** The passes after the literals. */
  function Finish(text: string): string {
    Lower(Strip(Collapse(DropLineComments(text))))
  }

  lemma NormalizeItems(xs: seq<Item>)
    requires Formed(None, xs)
    ensures Normalize(PrintItems(xs)) ==
            if Stripped(xs) == [] then "" else Finish(ReplaceLiterals(DropBlockComments(PrintItems(Stripped(xs)))))
  {
    StrippedPrinted(xs);
    BareEmpty(Stripped(xs));
  }

  lemma StatementItems(ts: seq<Token>)
    requires AreTokens(ts) && Apart(ts)
    ensures Formed(None, Items(ts)) && PrintItems(Items(ts)) == PrintTokens(ts)
    ensures Formed(None, Stripped(Items(ts)))
  {
    ItemsFormed(ts);
    ItemsPrint(ts);
    StrippedPrinted(Items(ts));
  }

  lemma StatementsBare(a: seq<Token>, b: seq<Token>)
    requires AreTokens(a) && Apart(a) && AreTokens(b) && Apart(b) && SameButLiterals(a, b)
    ensures Bare(Stripped(Items(a))) == Bare(Stripped(Items(b)))
    ensures Stripped(Items(a)) == [] <==> Stripped(Items(b)) == []
  {
    StatementItems(a);
    StatementItems(b);
    SameIsBare(a, b);
    StrippedBare(Items(a), Items(b));
    BareEmpty(Stripped(Items(a)));
    BareEmpty(Stripped(Items(b)));
  }

  /** The fingerprint does not show what a literal holds: two statements that differ in literals
      only, in which no literal touches one of its own quote and comments are contained, are
      normalised alike. */
  lemma ContentIsInvisible(a: seq<Token>, b: seq<Token>)
    requires AreTokens(a) && Apart(a) && CommentsContained(a)
    requires AreTokens(b) && Apart(b) && CommentsContained(b)
    requires SameButLiterals(a, b)
    ensures Normalize(PrintTokens(a)) == Normalize(PrintTokens(b))
  {
    StatementItems(a);
    StatementItems(b);
    StatementsBare(a, b);
    BareDecides(Stripped(Items(a)), Stripped(Items(b)));
    NormalizeItems(Items(a));
    NormalizeItems(Items(b));
  }

  // ---------- when content does show ----------

  /** How many question marks a text has. */
  function Questions(s: string): nat {
    if s == "" then 0 else (if s[0] == '?' then 1 else 0) + Questions(s[1..])
  }

  lemma {:induction false} QuestionsJoin(a: string, b: string)
    ensures Questions(a + b) == Questions(a) + Questions(b)
  {
    if a == "" {
      assert a + b == b;
    } else {
      assert (a + b)[1..] == a[1..] + b;
      QuestionsJoin(a[1..], b);
    }
  }

  lemma OneQuestion(c: char)
    ensures Questions([c]) == if c == '?' then 1 else 0
  {
    assert [c][1..] == "";
  }

  lemma QuestionsCut(s: string, n: nat)
    requires n <= |s|
    ensures Questions(s) == Questions(s[..n]) + Questions(s[n..])
  {
    assert s == s[..n] + s[n..];
    QuestionsJoin(s[..n], s[n..]);
  }

  lemma {:induction false} SpaceQuestions(s: string)
    requires forall i :: 0 <= i < |s| ==> IsSpace(s[i])
    ensures Questions(s) == 0
  {
    if s != "" {
      SpaceQuestions(s[1..]);
    }
  }

  /** A text without line comments keeps its question marks when they are dropped; any text gets
      no more. */
  lemma {:induction false} CuttingQuestions(s: string)
    ensures Questions(DropLineComments(s)) <= Questions(s)
    ensures NoPair(s, '-', '-') ==> Questions(DropLineComments(s)) == Questions(s)
    decreases |s|
  {
    if s != "" {
      var n, m := FirstLine(s);
      LineQuestions(s, n, m);
      if m < |s| {
        CuttingQuestions(s[m..]);
        SpaceJoins(s[..n], DropLineComments(s[m..]));
        if NoPair(s, '-', '-') {
          SuffixPair(s, m, '-', '-');
        }
      } else {
        assert s[m..] == "";
      }
    }
  }

  lemma LineQuestions(s: string, n: nat, m: nat)
    requires n <= m <= |s|
    ensures Questions(s) == Questions(s[..n]) + Questions(s[n..m]) + Questions(s[m..])
    ensures (forall i :: n <= i < m ==> IsLineBreak(s[i])) ==> Questions(s[n..m]) == 0
  {
    QuestionsCut(s, m);
    QuestionsCut(s[..m], n);
    assert s[..m][..n] == s[..n] && s[..m][n..] == s[n..m];
    if forall i :: n <= i < m ==> IsLineBreak(s[i]) {
      SpaceQuestions(s[n..m]);
    }
  }

  lemma SpaceJoins(a: string, b: string)
    ensures Questions(a + " " + b) == Questions(a) + Questions(b)
  {
    QuestionsJoin(a + " ", b);
    QuestionsJoin(a, " ");
    OneQuestion(' ');
  }

  lemma QuestionsCons(c: char, s: string)
    ensures Questions([c] + s) == (if c == '?' then 1 else 0) + Questions(s)
  {
    assert ([c] + s)[1..] == s;
  }

  lemma {:induction false} CollapseQuestions(s: string)
    ensures Questions(Collapse(s)) == Questions(s)
    decreases |s|
  {
    if s == "" {
    } else if IsSpace(s[0]) {
      SkipQuestions(s);
      CollapseQuestions(SkipSpaces(s));
      QuestionsCons(' ', Collapse(SkipSpaces(s)));
    } else {
      CollapseQuestions(s[1..]);
      QuestionsCons(s[0], Collapse(s[1..]));
    }
  }

  lemma {:induction false} SkipQuestions(s: string)
    ensures Questions(SkipSpaces(s)) == Questions(s)
  {
    if s != "" && IsSpace(s[0]) {
      SkipQuestions(s[1..]);
    }
  }

  lemma {:induction false} StripLeftQuestions(s: string)
    ensures Questions(StripLeft(s)) == Questions(s)
  {
    if s != "" && IsSpace(s[0]) {
      StripLeftQuestions(s[1..]);
    }
  }

  lemma {:induction false} StripRightQuestions(s: string)
    ensures Questions(StripRight(s)) == Questions(s)
    decreases |s|
  {
    if s != "" && IsSpace(s[|s| - 1]) {
      StripRightQuestions(s[..|s| - 1]);
      QuestionsCut(s, |s| - 1);
      assert s[|s| - 1..] == [s[|s| - 1]];
      OneQuestion(s[|s| - 1]);
    }
  }

  lemma {:induction false} LowerQuestions(s: string)
    ensures Questions(Lower(s)) == Questions(s)
  {
    if s != "" {
      assert Lower(s)[1..] == Lower(s[1..]);
      LowerQuestions(s[1..]);
    }
  }

  lemma FinishQuestions(text: string)
    ensures Questions(Finish(text)) <= Questions(text)
    ensures NoPair(text, '-', '-') ==> Questions(Finish(text)) == Questions(text)
  {
    var c := Collapse(DropLineComments(text));
    CuttingQuestions(text);
    CollapseQuestions(DropLineComments(text));
    StripLeftQuestions(c);
    StripRightQuestions(StripLeft(c));
    LowerQuestions(Strip(c));
  }

  // comments between literals

  /** The text outside literals has no beginning and no end of a block comment. */
  ghost predicate Clear(xs: seq<Item>) {
    NoPair(Holes(xs), '/', '*') && NoPair(Holes(xs), '*', '/')
  }

  predicate OneQuote(xs: seq<Item>, q: char) {
    forall i :: 0 <= i < |xs| ==> xs[i].Ch? || xs[i].q == q
  }

  lemma HolesCut(xs: seq<Item>, n: nat)
    requires n <= |xs|
    ensures var k := |Holes(xs[..n])|;
      k <= |Holes(xs)| && Holes(xs[..n]) == Holes(xs)[..k] && Holes(xs[n..]) == Holes(xs)[k..]
  {
    assert xs == xs[..n] + xs[n..];
    HolesJoin(xs[..n], xs[n..]);
  }

  lemma ClearTail(xs: seq<Item>, n: nat)
    requires Clear(xs) && n <= |xs|
    ensures Clear(xs[n..])
  {
    HolesCut(xs, n);
    SuffixPair(Holes(xs), |Holes(xs[..n])|, '/', '*');
    SuffixPair(Holes(xs), |Holes(xs[..n])|, '*', '/');
  }

  lemma StrippedPair(xs: seq<Item>, a: char, b: char)
    requires NoPair(Holes(xs), a, b)
    ensures NoPair(Holes(Stripped(xs)), a, b)
  {
    var l := LeftItems(xs);
    HolesCut(xs, |xs| - |l|);
    SuffixPair(Holes(xs), |Holes(xs[..|xs| - |l|])|, a, b);
    HolesCut(l, |RightItems(l)|);
    SlicePair(Holes(l), 0, |Holes(RightItems(l))|, a, b);
  }

  lemma PairOutside(st: Option<char>, xs: seq<Item>, a: char, b: char)
    requires Formed(st, xs) && AtItem(xs, 0, a, b) && xs[0].Ch?
    ensures At(Holes(xs), 0, a, b)
  {
    assert xs[1].Ch?;
    assert Holes(xs) == [xs[0].c] + Holes(xs[1..]);
    assert Holes(xs[1..]) == [xs[1].c] + Holes(xs[1..][1..]);
  }

  /** In such a list every comment begins and ends inside literals. */
  lemma OpensInside(st: Option<char>, xs: seq<Item>)
    requires Formed(st, xs) && Clear(xs) && Opens(xs)
    ensures xs[0].In? && xs[End(xs) - 1].In?
  {
    var n := End(xs);
    if xs[0].Ch? {
      PairOutside(st, xs, '/', '*');
    }
    FormedTail(st, xs, n - 2);
    ClearTail(xs, n - 2);
    if xs[n - 2].Ch? {
      assert AtItem(xs[n - 2..], 0, '*', '/');
      PairOutside(Behind(xs[n - 3]), xs[n - 2..], '*', '/');
    }
    FormedTail(st, xs, n - 1);
  }

  lemma {:induction false} OneQuoteIsEven(st: Option<char>, xs: seq<Item>, q: char)
    requires Formed(st, xs) && Clear(xs) && OneQuote(xs, q)
    ensures Even(xs)
    decreases |xs|
  {
    if xs == [] {
    } else if Opens(xs) {
      var n := End(xs);
      OpensInside(st, xs);
      FormedTail(st, xs, n);
      ClearTail(xs, n);
      OneQuoteIsEven(Behind(xs[n - 1]), xs[n..], q);
    } else {
      ClearTail(xs, 1);
      OneQuoteIsEven(Behind(xs[0]), xs[1..], q);
    }
  }

  lemma HolesCons(x: Item, xs: seq<Item>)
    ensures Questions(Holes([x] + xs)) == Questions(HoleOf(x)) + Questions(Holes(xs))
  {
    assert ([x] + xs)[1..] == xs;
    QuestionsJoin(HoleOf(x), Holes(xs));
  }

  lemma PlaceholderCounts()
    ensures Questions(" ? ") == 1
  {
    assert " ? "[1..] == "? " && "? "[1..] == " " && " "[1..] == "";
  }

  /** Who is outside a literal at some point and inside one later has passed an opening quote. */
  lemma {:induction false} Reopens(st: Option<char>, xs: seq<Item>, i: nat, n: nat)
    requires Formed(st, xs) && i < n <= |xs| && !xs[i].In? && xs[n - 1].In?
    ensures Questions(Holes(xs[..n])) >= 1
    decreases n
  {
    var tail := xs[1..][..n - 1];
    assert xs[..n] == [xs[0]] + tail;
    HolesCons(xs[0], tail);
    if xs[0].Open? {
      PlaceholderCounts();
    } else if i > 0 {
      Reopens(Behind(xs[0]), xs[1..], i - 1, n - 1);
    } else {
      assert !xs[1].In?;
      Reopens(Behind(xs[0]), xs[1..], 0, n - 1);
    }
  }

  lemma CommentLoses(st: Option<char>, xs: seq<Item>)
    requires Formed(st, xs) && Clear(xs) && Opens(xs)
    ensures xs[0].In?
    ensures Questions(Holes(DropItems(xs))) == Questions(Holes(DropItems(xs[End(xs)..])))
    ensures Questions(Holes(xs)) == Questions(Holes(xs[..End(xs)])) + Questions(Holes(xs[End(xs)..]))
    ensures !Whole(xs) ==> Questions(Holes(xs[..End(xs)])) >= 1
  {
    var n := End(xs);
    OpensInside(st, xs);
    HolesCons(Blank(xs[0]), DropItems(xs[n..]));
    assert xs == xs[..n] + xs[n..];
    HolesJoin(xs[..n], xs[n..]);
    QuestionsJoin(Holes(xs[..n]), Holes(xs[n..]));
    if !Whole(xs) {
      var i :| 0 <= i < n && !xs[i].In?;
      Reopens(st, xs, i, n);
    }
  }

  lemma FirstLoses(xs: seq<Item>)
    requires xs != [] && !Opens(xs)
    ensures Questions(Holes(DropItems(xs))) == Questions(HoleOf(xs[0])) + Questions(Holes(DropItems(xs[1..])))
    ensures Questions(Holes(xs)) == Questions(HoleOf(xs[0])) + Questions(Holes(xs[1..]))
  {
    HolesCons(xs[0], DropItems(xs[1..]));
    QuestionsJoin(HoleOf(xs[0]), Holes(xs[1..]));
  }

  /** Dropping comments between literals loses placeholders; nothing ever adds one. */
  lemma {:induction false} DropLoses(st: Option<char>, xs: seq<Item>)
    requires Formed(st, xs) && Clear(xs)
    ensures Questions(Holes(DropItems(xs))) <= Questions(Holes(xs))
    ensures !Contained(xs) ==> Questions(Holes(DropItems(xs))) < Questions(Holes(xs))
    decreases |xs|
  {
    if xs == [] {
    } else if Opens(xs) {
      var n := End(xs);
      FormedTail(st, xs, n);
      ClearTail(xs, n);
      DropLoses(Behind(xs[n - 1]), xs[n..]);
      CommentLoses(st, xs);
    } else {
      ClearTail(xs, 1);
      DropLoses(Behind(xs[0]), xs[1..]);
      FirstLoses(xs);
    }
  }

  lemma {:induction false} BareHasNoInside(xs: seq<Item>)
    ensures forall i :: 0 <= i < |Bare(xs)| ==> !Bare(xs)[i].In?
  {
    if xs != [] {
      BareHasNoInside(xs[1..]);
    }
  }

  lemma {:induction false} NothingToDropOutside(xs: seq<Item>)
    requires NoPair(Holes(xs), '/', '*') && forall i :: 0 <= i < |xs| ==> !xs[i].In?
    ensures DropItems(xs) == xs
    decreases |xs|
  {
    if xs != [] {
      HolesCut(xs, 1);
      SuffixPair(Holes(xs), |Holes(xs[..1])|, '/', '*');
      NothingToDropOutside(xs[1..]);
      if AtItem(xs, 0, '/', '*') {
        assert Holes(xs) == [xs[0].c] + ([xs[1].c] + Holes(xs[1..][1..]));
        assert At(Holes(xs), 0, '/', '*');
      }
      assert xs == [xs[0]] + xs[1..];
    }
  }

  /** Contained comments all lie in literals when the text outside is clear: no placeholder is lost. */
  lemma ContainedLosesNothing(xs: seq<Item>)
    requires Formed(None, xs) && Contained(xs) && Clear(xs)
    ensures Holes(DropItems(xs)) == Holes(xs)
  {
    DropBare(None, xs);
    HolesBare(DropItems(xs));
    HolesBare(xs);
    BareHasNoInside(xs);
    NothingToDropOutside(Bare(xs));
  }

  lemma MergedShows(x: seq<Item>, y: seq<Item>, q: char)
    requires Formed(None, x) && Formed(None, y) && Bare(x) == Bare(y)
    requires OneQuote(x, q) && Clear(x) && NoPair(Holes(x), '-', '-')
    requires Contained(y) && !Contained(x)
    ensures Finish(ReplaceLiterals(DropBlockComments(PrintItems(x)))) != Finish(ReplaceLiterals(DropBlockComments(PrintItems(y))))
  {
    HolesBare(x);
    HolesBare(y);
    OneQuoteIsEven(None, x, q);
    ContainedIsEven(None, y);
    AfterTwoPasses(x);
    AfterTwoPasses(y);
    DropLoses(None, x);
    ContainedLosesNothing(y);
    FinishQuestions(Holes(DropItems(x)));
    FinishQuestions(Holes(y));
  }

  /** All literals of the statement are in one kind of quote. */
  predicate QuotedBy(ts: seq<Token>, q: char) {
    forall i :: 0 <= i < |ts| && ts[i].Quoted? ==> ts[i].quote == q
  }

  lemma {:induction false} ItemsQuoted(ts: seq<Token>, q: char)
    requires QuotedBy(ts, q)
    ensures OneQuote(Items(ts), q)
  {
    if ts != [] {
      ItemsQuoted(ts[1..], q);
      assert OneQuote(ItemsOf(ts[0]), q);
    }
  }

  /** The statement with its literals blanked out has no comment mark. */
  ghost predicate PlainlyUnmarked(ts: seq<Token>) {
    NoPair(Shape(ts), '/', '*') && NoPair(Shape(ts), '*', '/') && NoPair(Shape(ts), '-', '-')
  }

  lemma StrippedClear(ts: seq<Token>, q: char)
    requires QuotedBy(ts, q) && PlainlyUnmarked(ts)
    ensures var x := Stripped(Items(ts)); OneQuote(x, q) && Clear(x) && NoPair(Holes(x), '-', '-')
  {
    ItemsPrint(ts);
    StrippedPair(Items(ts), '/', '*');
    StrippedPair(Items(ts), '*', '/');
    StrippedPair(Items(ts), '-', '-');
    ItemsQuoted(ts, q);
  }

  lemma NormalizeTokens(ts: seq<Token>)
    requires AreTokens(ts) && Apart(ts) && Stripped(Items(ts)) != []
    ensures Formed(None, Stripped(Items(ts)))
    ensures Normalize(PrintTokens(ts)) == Finish(ReplaceLiterals(DropBlockComments(PrintItems(Stripped(Items(ts))))))
  {
    StatementItems(ts);
    NormalizeItems(Items(ts));
  }

  lemma MergedStatements(a: seq<Token>, b: seq<Token>, q: char)
    requires AreTokens(a) && Apart(a) && QuotedBy(a, q) && PlainlyUnmarked(a) && !CommentsContained(a)
    requires AreTokens(b) && Apart(b) && CommentsContained(b)
    requires SameButLiterals(a, b)
    ensures Normalize(PrintTokens(a)) != Normalize(PrintTokens(b))
  {
    StatementsBare(a, b);
    NormalizeTokens(a);
    NormalizeTokens(b);
    StrippedClear(a, q);
    MergedShows(Stripped(Items(a)), Stripped(Items(b)), q);
  }

  /** With one kind of quote and no comment mark outside literals, the content of the literals
      shows in the fingerprint exactly when some block comment is not contained in one literal:
      it then swallows what stands between two literals and merges them. */
  lemma ContentShowsExactly(a: seq<Token>, b: seq<Token>, q: char)
    requires AreTokens(a) && Apart(a) && QuotedBy(a, q) && PlainlyUnmarked(a)
    requires AreTokens(b) && Apart(b) && CommentsContained(b)
    requires SameButLiterals(a, b)
    ensures Normalize(PrintTokens(a)) == Normalize(PrintTokens(b)) <==> CommentsContained(a)
  {
    if CommentsContained(a) {
      ContentIsInvisible(a, b);
    } else {
      MergedStatements(a, b, q);
    }
  }

  // ---------- a simple condition, and two pairs of statements ----------

  /** No literal holds the beginning or the end of a block comment. */
  ghost predicate Unmarked(ts: seq<Token>) {
    forall i :: 0 <= i < |ts| && ts[i].Quoted? ==> NoPair(ts[i].content, '/', '*') && NoPair(ts[i].content, '*', '/')
  }

  ghost predicate UnmarkedInside(xs: seq<Item>) {
    forall i :: 0 <= i < |xs| && xs[i].In? ==> !AtItem(xs, i, '/', '*') && !AtItem(xs, i, '*', '/')
  }

  lemma UnmarkedSlice(xs: seq<Item>, i: nat, j: nat)
    requires UnmarkedInside(xs) && i <= j <= |xs|
    ensures UnmarkedInside(xs[i..j])
  {
    forall k | 0 <= k < j - i && xs[i..j][k].In? ensures !AtItem(xs[i..j], k, '/', '*') && !AtItem(xs[i..j], k, '*', '/') {
      assert xs[i..j][k] == xs[i + k] && !AtItem(xs, i + k, '/', '*') && !AtItem(xs, i + k, '*', '/');
    }
  }

  lemma {:induction false} UnmarkedContains(st: Option<char>, xs: seq<Item>)
    requires Formed(st, xs) && UnmarkedInside(xs)
    ensures Contained(xs)
    decreases |xs|
  {
    if xs == [] {
    } else if Opens(xs) {
      var n := End(xs);
      FormedTail(st, xs, n);
      FormedTail(st, xs, n - 1);
      assert !xs[0].In? && !xs[n - 2].In?;
      UnmarkedSlice(xs, n, |xs|);
      assert xs[n..|xs|] == xs[n..];
      UnmarkedContains(Behind(xs[n - 1]), xs[n..]);
    } else {
      UnmarkedSlice(xs, 1, |xs|);
      assert xs[1..|xs|] == xs[1..];
      UnmarkedContains(Behind(xs[0]), xs[1..]);
    }
  }

  lemma UnmarkedJoin(x: seq<Item>, y: seq<Item>)
    requires UnmarkedInside(x) && UnmarkedInside(y) && (x != [] ==> !x[|x| - 1].In?)
    ensures UnmarkedInside(x + y)
  {
    var xs := x + y;
    forall k | 0 <= k < |xs| && xs[k].In? ensures !AtItem(xs, k, '/', '*') && !AtItem(xs, k, '*', '/') {
      if k < |x| {
        assert x[k] == xs[k] && x[k + 1] == xs[k + 1];
        assert !AtItem(x, k, '/', '*') && !AtItem(x, k, '*', '/');
      } else {
        assert y[k - |x|] == xs[k];
        assert !AtItem(y, k - |x|, '/', '*') && !AtItem(y, k - |x|, '*', '/');
      }
    }
  }

  lemma UnmarkedToken(t: Token)
    requires t.Quoted? ==> NoPair(t.content, '/', '*') && NoPair(t.content, '*', '/')
    ensures UnmarkedInside(ItemsOf(t)) && (ItemsOf(t) != [] ==> !ItemsOf(t)[|ItemsOf(t)| - 1].In?)
  {
    var xs := ItemsOf(t);
    forall k | 0 <= k < |xs| && xs[k].In? ensures !AtItem(xs, k, '/', '*') && !AtItem(xs, k, '*', '/') {
      assert !At(t.content, k - 1, '/', '*') && !At(t.content, k - 1, '*', '/');
    }
  }

  lemma {:induction false} UnmarkedItems(ts: seq<Token>)
    requires Unmarked(ts)
    ensures UnmarkedInside(Items(ts))
  {
    if ts != [] {
      UnmarkedItems(ts[1..]);
      UnmarkedToken(ts[0]);
      UnmarkedJoin(ItemsOf(ts[0]), Items(ts[1..]));
    }
  }

  /** Literals without comment marks are harmless: the comments are then contained. */
  lemma UnmarkedIsContained(ts: seq<Token>)
    requires AreTokens(ts) && Apart(ts) && Unmarked(ts)
    ensures CommentsContained(ts)
  {
    var xs := Items(ts);
    var l := LeftItems(xs);
    StatementItems(ts);
    UnmarkedItems(ts);
    UnmarkedSlice(xs, |xs| - |l|, |xs|);
    assert xs[|xs| - |l|..|xs|] == l;
    UnmarkedSlice(l, 0, |RightItems(l)|);
    UnmarkedContains(None, Stripped(xs));
  }

  lemma FindSkips(xs: seq<Item>, n: nat)
    requires n < |xs| - 1 && AtItem(xs, n, '*', '/') && forall i :: 0 <= i < n ==> !AtItem(xs, i, '*', '/')
    ensures FindItem(xs, '*', '/') == n
    decreases n
  {
    if n > 0 {
      assert !AtItem(xs, 0, '*', '/');
      forall i | 0 <= i < n - 1 ensures !AtItem(xs[1..], i, '*', '/') {
        assert !AtItem(xs, i + 1, '*', '/');
      }
      FindSkips(xs[1..], n - 1);
    }
  }

  /** The items behind the first quote of '/*'q'*/'. */
  const CROSSING: seq<Item> :=
    [In('\'', '/'), In('\'', '*'), Close('\''), Ch('q'), Open('\''), In('\'', '*'), In('\'', '/'), Close('\'')]

  lemma CrossingEnds()
    ensures Opens(CROSSING) && !Whole(CROSSING)
  {
    var u := CROSSING[2..];
    assert forall i :: 0 <= i < |u| ==> u[i] == CROSSING[i + 2];
    FindSkips(u, 3);
    assert !CROSSING[2].In?;
  }

  lemma MarkedItems(a: seq<Token>)
    requires a == [Quoted('\'', "/*"), Plain("q"), Quoted('\'', "*/")]
    ensures Items(a) == [Open('\'')] + CROSSING
  {
    assert a[1..][1..][1..] == [];
    assert Items(a[1..][1..]) == [Open('\''), In('\'', '*'), In('\'', '/'), Close('\'')];
    assert Items(a[1..]) == [Ch('q')] + Items(a[1..][1..]);
    assert ItemsOf(a[0]) == [Open('\''), In('\'', '/'), In('\'', '*'), Close('\'')];
  }

  lemma NothingToStrip(xs: seq<Item>)
    requires xs != [] && !BlankItem(xs[0]) && !BlankItem(xs[|xs| - 1])
    ensures Stripped(xs) == xs
  {
  }

  lemma ContainedBehind(q: char, xs: seq<Item>)
    ensures Contained([Open(q)] + xs) <==> Contained(xs)
  {
    assert ([Open(q)] + xs)[1..] == xs;
  }

  lemma NotWhole(xs: seq<Item>)
    requires Opens(xs) && !Whole(xs)
    ensures !Contained(xs)
  {
  }

  lemma MarkedCrosses(a: seq<Token>)
    requires a == [Quoted('\'', "/*"), Plain("q"), Quoted('\'', "*/")]
    ensures !CommentsContained(a)
  {
    MarkedItems(a);
    CrossingEnds();
    NotWhole(CROSSING);
    ContainedBehind('\'', CROSSING);
    NothingToStrip([Open('\'')] + CROSSING);
  }

  lemma MarkedPlain(a: seq<Token>)
    requires a == [Quoted('\'', "/*"), Plain("q"), Quoted('\'', "*/")]
    ensures PlainlyUnmarked(a)
  {
    assert a[1..][1..][1..] == [];
    assert Shape(a[1..][1..]) == " ? ";
    assert Shape(a[1..]) == "q ? ";
    assert Shape(a) == " ? q ? ";
  }

  lemma MarkedTokens(a: seq<Token>, b: seq<Token>)
    requires a == [Quoted('\'', "/*"), Plain("q"), Quoted('\'', "*/")]
    requires b == [Quoted('\'', ""), Plain("q"), Quoted('\'', "")]
    ensures AreTokens(a) && Apart(a) && AreTokens(b) && Apart(b) && SameButLiterals(a, b) && Unmarked(b) && QuotedBy(a, '\'')
  {
  }

  /** Two statements that differ in literals only and are normalised apart: '/*'q'*/' loses the
      word between its literals, ''q'' does not. */
  lemma MarksShow() returns (a: seq<Token>, b: seq<Token>)
    ensures AreTokens(a) && Apart(a) && AreTokens(b) && Apart(b) && SameButLiterals(a, b) && Unmarked(b)
    ensures Normalize(PrintTokens(a)) != Normalize(PrintTokens(b))
  {
    a := [Quoted('\'', "/*"), Plain("q"), Quoted('\'', "*/")];
    b := [Quoted('\'', ""), Plain("q"), Quoted('\'', "")];
    MarkedTokens(a, b);
    MarkedCrosses(a);
    MarkedPlain(a);
    UnmarkedIsContained(b);
    MergedStatements(a, b, '\'');
  }

  // a comment between literals of different quotes

  const FIRST := Quoted('\'', "/*")
  const SECOND := Quoted('"', "*/' q ")

  /** The items behind the first quote of '/*' q "*/' q ". */
  function MixedRest(): seq<Item> {
    [In('\'', '/'), In('\'', '*'), Close('\''), Ch(' '), Ch('q'), Ch(' '), Open('"'), In('"', '*'), In('"', '/'),
     In('"', '\''), In('"', ' '), In('"', 'q'), In('"', ' '), Close('"')]
  }

  lemma MixedItems()
    ensures Items([FIRST, Plain(" q "), SECOND]) == [Open('\'')] + MixedRest()
  {
    var a := [FIRST, Plain(" q "), SECOND];
    assert a[1..][1..][1..] == [];
    assert Items(a[1..][1..]) == ItemsOf(SECOND);
    assert Items(a[1..]) == PlainItems(" q ") + ItemsOf(SECOND);
    assert ItemsOf(FIRST) == [Open('\''), In('\'', '/'), In('\'', '*'), Close('\'')];
    assert PlainItems(" q ") == [Ch(' '), Ch('q'), Ch(' ')];
  }

  lemma MixedBehindOpening(u: seq<Item>)
    requires u == MixedRest()[2..]
    ensures |u| == 12 && AtItem(u, 5, '*', '/') && forall i :: 0 <= i < 5 ==> Letter(u[i]) != Some('*')
  {
    assert u == [Close('\''), Ch(' '), Ch('q'), Ch(' '), Open('"'), In('"', '*'), In('"', '/'),
                 In('"', '\''), In('"', ' '), In('"', 'q'), In('"', ' '), Close('"')];
  }

  lemma MixedCrosses()
    ensures Opens(MixedRest()) && !Whole(MixedRest()) && End(MixedRest()) == 9
  {
    var xs := MixedRest();
    var u := xs[2..];
    MixedBehindOpening(u);
    FindSkips(u, 5);
    assert |xs| == 14 && AtItem(xs, 0, '/', '*') && !xs[2].In?;
  }

  lemma {:induction false} NothingOpens(xs: seq<Item>)
    requires forall i :: 0 <= i < |xs| ==> !AtItem(xs, i, '/', '*')
    ensures DropItems(xs) == xs
    decreases |xs|
  {
    if xs != [] {
      assert !AtItem(xs, 0, '/', '*');
      forall i | 0 <= i < |xs[1..]| ensures !AtItem(xs[1..], i, '/', '*') {
        assert !AtItem(xs, i + 1, '/', '*');
      }
      NothingOpens(xs[1..]);
      assert xs == [xs[0]] + xs[1..];
    }
  }

  /** What dropping its comment leaves of the statement. */
  function MixedLeft(): seq<Item> {
    [Open('\''), In('\'', ' '), In('"', '\''), In('"', ' '), In('"', 'q'), In('"', ' '), Close('"')]
  }

  lemma JoinAgain<T>(a: seq<T>, b: seq<T>, c: seq<T>)
    ensures a + (b + c) == a + b + c
  {
  }

  lemma DropBehind(q: char, xs: seq<Item>)
    requires Opens(xs)
    ensures DropItems([Open(q)] + xs) == [Open(q)] + [Blank(xs[0])] + DropItems(xs[End(xs)..])
  {
    var all := [Open(q)] + xs;
    assert all[1..] == xs && all[0] == Open(q) && !Opens(all);
    assert DropItems(all) == [Open(q)] + DropItems(xs);
    JoinAgain([Open(q)], [Blank(xs[0])], DropItems(xs[End(xs)..]));
  }

  lemma MixedTail(rest: seq<Item>)
    requires rest == MixedRest()[9..]
    ensures DropItems(rest) == rest
    ensures [Open('\'')] + [In('\'', ' ')] + rest == MixedLeft()
  {
    assert rest == [In('"', '\''), In('"', ' '), In('"', 'q'), In('"', ' '), Close('"')];
    NothingOpens(rest);
  }

  lemma MixedDropped()
    ensures DropItems([Open('\'')] + MixedRest()) == MixedLeft()
  {
    MixedCrosses();
    DropBehind('\'', MixedRest());
    MixedTail(MixedRest()[9..]);
  }

  lemma PrintTwo(x: Item, y: Item, xs: seq<Item>)
    ensures PrintItems([x, y] + xs) == PrintItem(x) + PrintItem(y) + PrintItems(xs)
  {
    assert [x, y] + xs == [x] + ([y] + xs);
    PrintCons(x, [y] + xs);
    PrintCons(y, xs);
    TextAssociates(PrintItem(x), PrintItem(y), PrintItems(xs));
  }

  lemma MixedLeftPrinted()
    ensures PrintItems(MixedLeft()) == "' ' q \""
  {
    var u := [In('"', ' '), Close('"')];
    var v := [In('"', ' '), In('"', 'q')] + u;
    var w := [In('\'', ' '), In('"', '\'')] + v;
    PrintTwo(In('"', ' '), Close('"'), []);
    assert [In('"', ' '), Close('"')] + [] == u;
    PrintTwo(In('"', ' '), In('"', 'q'), u);
    PrintTwo(In('\'', ' '), In('"', '\''), v);
    PrintCons(Open('\''), w);
    assert MixedLeft() == [Open('\'')] + w;
  }

  /** The last quote opens a literal that runs to the end. */
  lemma MixedLeftScanned(s: string)
    requires s == "' ' q \""
    ensures ReplaceLiterals(s) == " ?  q  ? "
  {
    var rest := s[3..];
    assert LiteralEnd(s, '\'', 1) == 3;
    assert rest == [' ', 'q', ' ', '"'] && rest[1..] == ['q', ' ', '"'] && rest[1..][1..] == [' ', '"'] && rest[1..][1..][1..] == ['"'];
    assert LiteralEnd(['"'], '"', 1) == 1 && ['"'][1..] == "";
    assert ReplaceLiterals(['"']) == " ? ";
    assert ReplaceLiterals(rest[1..][1..]) == "  ? ";
    assert ReplaceLiterals(rest[1..]) == "q  ? ";
    assert ReplaceLiterals(rest) == " q  ? ";
  }

  predicate IsMixed(a: seq<Token>) {
    a == [FIRST, Plain(" q "), SECOND]
  }

  predicate IsEmptied(b: seq<Token>) {
    b == [Quoted('\'', ""), Plain(" q "), Quoted('"', "")]
  }

  /** Both come down to this text before line comments are dropped. */
  predicate IsLeft(text: string) {
    text == " ?  q  ? "
  }

  lemma EmptiedShape(b: seq<Token>)
    requires IsEmptied(b)
    ensures IsLeft(Shape(b)) && PlainlyUnmarked(b)
    ensures AreTokens(b) && Apart(b) && Unmarked(b)
  {
    assert b[1..][1..][1..] == [];
    assert Shape(b[1..][1..]) == " ? ";
    assert Shape(b[1..]) == " q " + " ? ";
  }

  lemma EmptiedEnds(b: seq<Token>)
    requires IsEmptied(b)
    ensures Items(b) != [] && Stripped(Items(b)) == Items(b)
  {
    assert b[1..][1..][1..] == [] && Items(b[1..][1..]) == ItemsOf(b[2]);
    assert Items(b) == ItemsOf(b[0]) + (PlainItems(" q ") + ItemsOf(b[2]));
    NothingToStrip(Items(b));
  }

  lemma EmptiedNormalized(b: seq<Token>)
    requires IsEmptied(b)
    ensures CommentsContained(b) && Normalize(PrintTokens(b)) == Finish(Shape(b))
  {
    var xs := Items(b);
    EmptiedShape(b);
    EmptiedEnds(b);
    UnmarkedIsContained(b);
    ItemsPrint(b);
    NormalizeTokens(b);
    ContainedIsEven(None, xs);
    AfterTwoPasses(xs);
    ContainedLosesNothing(xs);
  }

  lemma MixedTokens(a: seq<Token>)
    requires IsMixed(a)
    ensures AreTokens(a) && Apart(a)
  {
  }

  lemma MixedNotContained(xs: seq<Item>)
    requires xs == [Open('\'')] + MixedRest()
    ensures !Contained(xs)
  {
    MixedCrosses();
    NotWhole(MixedRest());
    ContainedBehind('\'', MixedRest());
  }

  lemma MixedEnds(xs: seq<Item>)
    requires xs == [Open('\'')] + MixedRest()
    ensures xs != [] && Stripped(xs) == xs
  {
    assert xs[0] == Open('\'') && xs[|xs| - 1] == Close('"');
    NothingToStrip(xs);
  }

  lemma MixedIsApart(a: seq<Token>)
    requires IsMixed(a)
    ensures AreTokens(a) && Apart(a) && !CommentsContained(a)
    ensures Items(a) == [Open('\'')] + MixedRest() && Stripped(Items(a)) == Items(a)
  {
    MixedTokens(a);
    MixedItems();
    MixedEnds(Items(a));
    MixedNotContained(Items(a));
  }

  lemma MixedScanned(a: seq<Token>, s: string)
    requires IsMixed(a) && s == DropBlockComments(PrintItems(Items(a)))
    ensures IsLeft(ReplaceLiterals(s))
  {
    var xs := Items(a);
    MixedIsApart(a);
    ItemsFormed(a);
    FormedItems(None, xs);
    DropPrinted(xs);
    MixedDropped();
    MixedLeftPrinted();
    MixedLeftScanned(s);
  }

  lemma SameShape(a: seq<Token>, b: seq<Token>)
    requires SameButLiterals(a, b)
    ensures Shape(a) == Shape(b)
  {
    SameIsBare(a, b);
    ItemsPrint(a);
    ItemsPrint(b);
    HolesBare(Items(a));
    HolesBare(Items(b));
  }

  lemma MixedAgree(a: seq<Token>, b: seq<Token>)
    requires IsMixed(a) && IsEmptied(b)
    ensures ReplaceLiterals(DropBlockComments(PrintItems(Items(a)))) == Shape(b)
  {
    MixedScanned(a, DropBlockComments(PrintItems(Items(a))));
    EmptiedShape(b);
  }

  lemma MixedNormalized(a: seq<Token>, b: seq<Token>)
    requires IsMixed(a) && IsEmptied(b)
    ensures Normalize(PrintTokens(a)) == Normalize(PrintTokens(b))
  {
    MixedIsApart(a);
    NormalizeTokens(a);
    MixedAgree(a, b);
    EmptiedNormalized(b);
  }

  /** With two kinds of quote a comment between literals may leave as many literals as there were:
      '/*' q "*/' q " is normalised like '' q "", although its comment is not contained. */
  lemma MixedQuotesHide() returns (a: seq<Token>, b: seq<Token>)
    ensures AreTokens(a) && Apart(a) && AreTokens(b) && Apart(b) && SameButLiterals(a, b)
    ensures PlainlyUnmarked(a) && !CommentsContained(a) && CommentsContained(b)
    ensures Normalize(PrintTokens(a)) == Normalize(PrintTokens(b))
  {
    a := [FIRST, Plain(" q "), SECOND];
    b := [Quoted('\'', ""), Plain(" q "), Quoted('"', "")];
    MixedIsApart(a);
    EmptiedShape(b);
    SameShape(a, b);
    EmptiedNormalized(b);
    MixedNormalized(a, b);
  }
}
