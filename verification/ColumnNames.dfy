/** Turning file headers into column names: the character clean-up, and the numbering that keeps
    the names of one file apart. */
module ColumnNames {

  predicate WordChar(c: char) {
    'a' <= c <= 'z' || 'A' <= c <= 'Z' || '0' <= c <= '9' || c == '_'
  }

  /** The word characters by code: ten digits, 26 letters of each case, and the underscore. */
  lemma WordCharsByCode(c: char)
    ensures WordChar(c) <==> 0 <= c as int - 48 < 10 || 0 <= c as int - 65 < 26 || 0 <= c as int - 97 < 26 || c as int == 95
  {
  }

  /** An identifier _validate_identifier accepts. */
  predicate Identifier(s: string) {
    s != "" && forall c <- s :: WordChar(c)
  }

  // ---------- one header ----------

  /** str.strip with a given notion of what is stripped. */
  function TrimLeft(s: string, drop: char -> bool): (r: string)
    ensures forall c :: c in r ==> c in s
    ensures r != "" ==> !drop(r[0])
  {
    if s != "" && drop(s[0]) then TrimLeft(s[1..], drop) else s
  }

  function TrimRight(s: string, drop: char -> bool): (r: string)
    ensures r <= s
    ensures r != "" ==> !drop(r[|r| - 1])
  {
    if s != "" && drop(s[|s| - 1]) then TrimRight(s[..|s| - 1], drop) else s
  }

  function Trim(s: string, drop: char -> bool): (r: string)
    ensures r != "" ==> !drop(r[0]) && !drop(r[|r| - 1])
    ensures forall c :: c in r ==> c in s
  {
    TrimRight(TrimLeft(s, drop), drop)
  }

  /** re.sub of every other character by an underscore. */
  function Mask(s: string): (r: string)
    ensures |r| == |s|
    ensures forall i :: 0 <= i < |s| ==> r[i] == if WordChar(s[i]) then s[i] else '_'
  {
    if s == "" then "" else [if WordChar(s[0]) then s[0] else '_'] + Mask(s[1..])
  }

  function IsUnderscore(): char -> bool {
    (c: char) => c == '_'
  }

  function OrCol(s: string): string {
    if s == "" then "col" else s
  }

  /** _normalize_column_name; `space` says what counts as white space. */
  function NormalizeColumnName(name: string, space: char -> bool): string {
    OrCol(Trim(OrCol(Mask(Trim(name, space))), IsUnderscore()))
  }

  lemma NormalizedIsIdentifier(name: string, space: char -> bool)
    ensures Identifier(NormalizeColumnName(name, space))
    ensures var r := NormalizeColumnName(name, space); r[0] != '_' && r[|r| - 1] != '_'
  {
    var masked := Mask(Trim(name, space));
    forall c | c in masked ensures WordChar(c) {
    }
    forall c | c in "col" ensures WordChar(c) {
    }
  }

  lemma {:induction false} NothingToTrim(s: string, drop: char -> bool)
    requires s != "" ==> !drop(s[0]) && !drop(s[|s| - 1])
    ensures Trim(s, drop) == s
  {
  }

  lemma {:induction false} MaskIdentifier(s: string)
    requires forall c :: c in s ==> WordChar(c)
    ensures Mask(s) == s
  {
    forall i | 0 <= i < |s| ensures Mask(s)[i] == s[i] {
      assert s[i] in s;
    }
  }

  lemma CleanStays(r: string, space: char -> bool)
    requires Identifier(r) && r[0] != '_' && r[|r| - 1] != '_'
    requires !space(r[0]) && !space(r[|r| - 1])
    ensures NormalizeColumnName(r, space) == r
  {
    NothingToTrim(r, space);
    MaskIdentifier(r);
    NothingToTrim(r, IsUnderscore());
  }

  /** A clean name stays as it is. */
  lemma NormalizeIdempotent(name: string, space: char -> bool)
    requires forall c :: WordChar(c) ==> !space(c)
    ensures NormalizeColumnName(NormalizeColumnName(name, space), space) == NormalizeColumnName(name, space)
  {
    var r := NormalizeColumnName(name, space);
    NormalizedIsIdentifier(name, space);
    WordEnds(r);
    CleanStays(r, space);
  }

  lemma WordEnds(r: string)
    requires Identifier(r)
    ensures WordChar(r[0]) && WordChar(r[|r| - 1])
  {
    assert r[0] in r && r[|r| - 1] in r;
  }

  /** Turns to an underscore and is stripped as one: it does not matter what counts as white
      space, as long as no word character does. */
  lemma WhiteSpaceIsIrrelevant(name: string, space: char -> bool)
    requires forall c :: WordChar(c) ==> !space(c)
    ensures NormalizeColumnName(name, space) == OrCol(Trim(Mask(name), IsUnderscore()))
  {
    TrimMasked(name, space);
    var masked := Mask(Trim(name, space));
    if masked == "" {
      NothingToTrim("col", IsUnderscore());
    }
  }

  lemma TrimMasked(name: string, space: char -> bool)
    requires forall c :: WordChar(c) ==> !space(c)
    ensures Trim(Mask(Trim(name, space)), IsUnderscore()) == Trim(Mask(name), IsUnderscore())
  {
    TrimRightMasked(TrimLeft(name, space), space);
    TrimLeftMasked(name, space);
    SidesCommute(Mask(TrimRight(TrimLeft(name, space), space)), IsUnderscore());
    SidesCommute(Mask(TrimLeft(name, space)), IsUnderscore());
  }

  lemma {:induction false} TrimLeftMasked(s: string, space: char -> bool)
    requires forall c :: WordChar(c) ==> !space(c)
    ensures TrimLeft(Mask(TrimLeft(s, space)), IsUnderscore()) == TrimLeft(Mask(s), IsUnderscore())
  {
    if s != "" && space(s[0]) {
      TrimLeftMasked(s[1..], space);
      assert Mask(s)[1..] == Mask(s[1..]);
      assert Mask(s)[0] == '_';
    }
  }

  lemma {:induction false} MaskPrefix(s: string)
    requires s != ""
    ensures Mask(s)[..|s| - 1] == Mask(s[..|s| - 1])
  {
  }

  lemma {:induction false} TrimRightMasked(s: string, space: char -> bool)
    requires forall c :: WordChar(c) ==> !space(c)
    ensures TrimRight(Mask(TrimRight(s, space)), IsUnderscore()) == TrimRight(Mask(s), IsUnderscore())
  {
    if s != "" && space(s[|s| - 1]) {
      TrimRightMasked(s[..|s| - 1], space);
      MaskPrefix(s);
      assert Mask(s)[|s| - 1] == '_';
    }
  }

  lemma {:induction false} SidesCommute(s: string, drop: char -> bool)
    ensures TrimRight(TrimLeft(s, drop), drop) == TrimLeft(TrimRight(s, drop), drop)
    decreases |s|
  {
    if s != "" && drop(s[0]) {
      SidesCommute(s[1..], drop);
      DropFirst(s, drop);
    } else if s != "" {
      KeepsFirst(s, drop);
    }
  }

  lemma {:induction false} DropFirst(s: string, drop: char -> bool)
    requires s != "" && drop(s[0])
    ensures TrimLeft(TrimRight(s, drop), drop) == TrimLeft(TrimRight(s[1..], drop), drop)
    decreases |s|
  {
    if |s| > 1 && drop(s[|s| - 1]) {
      DropFirst(s[..|s| - 1], drop);
      assert s[..|s| - 1][1..] == s[1..][..|s| - 2];
    }
  }

  lemma {:induction false} KeepsFirst(s: string, drop: char -> bool)
    requires s != "" && !drop(s[0])
    ensures TrimRight(s, drop) != "" && TrimRight(s, drop)[0] == s[0]
    decreases |s|
  {
    if drop(s[|s| - 1]) {
      KeepsFirst(s[..|s| - 1], drop);
    }
  }

  /** Nothing but underscores is left of this text. */
  predicate Blank(s: string) {
    forall c <- s :: !WordChar(c) || c == '_'
  }

  /** A text that keeps its ends. */
  predicate Solid(s: string) {
    s != "" && WordChar(s[0]) && s[0] != '_' && WordChar(s[|s| - 1]) && s[|s| - 1] != '_'
  }

  lemma {:induction false} MaskConcat(a: string, b: string)
    ensures Mask(a + b) == Mask(a) + Mask(b)
  {
    forall i | 0 <= i < |a| + |b| ensures Mask(a + b)[i] == (Mask(a) + Mask(b))[i] {
    }
  }

  ghost predicate AllDropped(s: string, drop: char -> bool) {
    forall i :: 0 <= i < |s| ==> drop(s[i])
  }

  lemma {:induction false} TrimLeftDrops(a: string, r: string, drop: char -> bool)
    requires AllDropped(a, drop) && (r == "" || !drop(r[0]))
    ensures TrimLeft(a + r, drop) == r
    decreases |a|
  {
    if a == "" {
      assert a + r == r;
    } else {
      assert (a + r)[1..] == a[1..] + r && (a + r)[0] == a[0];
      TrimLeftDrops(a[1..], r, drop);
    }
  }

  lemma {:induction false} TrimRightDrops(r: string, b: string, drop: char -> bool)
    requires AllDropped(b, drop) && (r == "" || !drop(r[|r| - 1]))
    ensures TrimRight(r + b, drop) == r
    decreases |b|
  {
    if b == "" {
      assert r + b == r;
    } else {
      var n := |b| - 1;
      assert (r + b)[..|r| + n] == r + b[..n] && (r + b)[|r| + n] == b[n];
      TrimRightDrops(r, b[..n], drop);
    }
  }

  lemma MaskBlank(s: string)
    requires Blank(s)
    ensures AllDropped(Mask(s), IsUnderscore())
  {
  }

  lemma MaskSolid(s: string)
    requires Solid(s)
    ensures Mask(s) != "" && Mask(s)[0] != '_' && Mask(s)[|s| - 1] != '_'
  {
  }

  /** The clean name is the core of the header from its first to its last letter or digit, with
      every other character in between replaced by an underscore. */
  lemma NormalizedIsCore(before: string, core: string, after: string, space: char -> bool)
    requires forall c :: WordChar(c) ==> !space(c)
    requires Blank(before) && Solid(core) && Blank(after)
    ensures NormalizeColumnName(before + core + after, space) == Mask(core)
  {
    WhiteSpaceIsIrrelevant(before + core + after, space);
    MaskConcat(before + core, after);
    MaskConcat(before, core);
    TrimsToCore(Mask(before), Mask(core), Mask(after), before, core, after);
  }

  lemma TrimsToCore(a: string, r: string, b: string, before: string, core: string, after: string)
    requires a == Mask(before) && r == Mask(core) && b == Mask(after)
    requires Blank(before) && Solid(core) && Blank(after)
    ensures Trim(a + r + b, IsUnderscore()) == r && r != ""
  {
    MaskBlank(before);
    MaskBlank(after);
    MaskSolid(core);
    assert a + r + b == a + (r + b);
    TrimLeftDrops(a, r + b, IsUnderscore());
    TrimRightDrops(r, b, IsUnderscore());
  }

  /** A header with no letter and no digit becomes col. */
  lemma BlankIsCol(name: string, space: char -> bool)
    requires (forall c :: WordChar(c) ==> !space(c)) && Blank(name)
    ensures NormalizeColumnName(name, space) == "col"
  {
    WhiteSpaceIsIrrelevant(name, space);
    MaskBlank(name);
    TrimLeftDrops(Mask(name), "", IsUnderscore());
    assert Mask(name) + "" == Mask(name);
  }

  // ---------- decimal suffixes ----------

  function Digit(d: nat): char
    requires d < 10
  {
    "0123456789"[d]
  }

  function Decimal(n: nat): (s: string)
    ensures s != ""
  {
    if n < 10 then [Digit(n)] else Decimal(n / 10) + [Digit(n % 10)]
  }

  lemma DigitInjective(a: nat, b: nat)
    requires a < 10 && b < 10 && Digit(a) == Digit(b)
    ensures a == b
  {
  }

  lemma {:induction false} DecimalInjective(a: nat, b: nat)
    requires Decimal(a) == Decimal(b)
    ensures a == b
    decreases a
  {
    var s, t := Decimal(a), Decimal(b);
    assert s[|s| - 1] == Digit(a % 10) && t[|t| - 1] == Digit(b % 10);
    DigitInjective(a % 10, b % 10);
    if a >= 10 {
      DecimalLonger(a);
      DecimalLonger(b);
      assert Decimal(a / 10) == s[..|s| - 1] && Decimal(b / 10) == t[..|t| - 1];
      DecimalInjective(a / 10, b / 10);
    } else {
      DecimalLonger(b);
    }
  }

  lemma DecimalLonger(n: nat)
    ensures |Decimal(n)| == 1 <==> n < 10
    ensures n >= 10 ==> |Decimal(n)| == |Decimal(n / 10)| + 1
  {
  }

  lemma {:induction false} DecimalDigits(n: nat)
    ensures forall c :: c in Decimal(n) ==> '0' <= c <= '9'
  {
    if n >= 10 {
      DecimalDigits(n / 10);
    }
  }

  /** The number a string of digits reads as. */
  function ReadDecimal(s: string): int {
    if s == "" then 0 else 10 * ReadDecimal(s[..|s| - 1]) + (s[|s| - 1] as int - '0' as int)
  }

  lemma DigitReads(d: nat)
    requires d < 10
    ensures Digit(d) as int - '0' as int == d && '0' <= Digit(d) <= '9'
  {
  }

  /** The suffix reads as its number and has no leading zero. */
  lemma {:induction false} DecimalReads(n: nat)
    ensures ReadDecimal(Decimal(n)) == n && (n > 0 ==> Decimal(n)[0] != '0')
    decreases n
  {
    var s := Decimal(n);
    if n < 10 {
      DigitReads(n);
      assert s[..0] == "" && ReadDecimal(s) == 10 * ReadDecimal(s[..0]) + (s[0] as int - '0' as int);
    } else {
      DigitReads(n % 10);
      DecimalReads(n / 10);
      assert s[..|s| - 1] == Decimal(n / 10);
    }
  }

  /** base, base_1, base_2, ... */
  function Candidate(base: string, k: nat): string {
    if k == 0 then base else base + "_" + Decimal(k)
  }

  lemma CandidateInjective(base: string, a: nat, b: nat)
    requires Candidate(base, a) == Candidate(base, b)
    ensures a == b
  {
    if a > 0 && b > 0 {
      assert Decimal(a) == Candidate(base, a)[|base| + 1..];
      assert Decimal(b) == Candidate(base, b)[|base| + 1..];
      DecimalInjective(a, b);
    }
  }

  lemma CandidateIdentifier(base: string, k: nat)
    requires Identifier(base)
    ensures Identifier(Candidate(base, k))
  {
    if k > 0 {
      DecimalDigits(k);
    }
  }

  // ---------- the first free name ----------

  ghost function FirstCandidates(base: string, n: nat): set<string> {
    if n == 0 then {} else FirstCandidates(base, n - 1) + {Candidate(base, n - 1)}
  }

  lemma {:induction false} CandidatesAre(base: string, n: nat, s: string)
    ensures s in FirstCandidates(base, n) <==> exists j: nat :: j < n && s == Candidate(base, j)
  {
    if n > 0 {
      CandidatesAre(base, n - 1, s);
    }
  }

  lemma {:induction false} CandidatesCount(base: string, n: nat)
    ensures |FirstCandidates(base, n)| == n
  {
    if n > 0 {
      CandidatesCount(base, n - 1);
      NextIsNew(base, n - 1);
    }
  }

  lemma NextIsNew(base: string, n: nat)
    ensures Candidate(base, n) !in FirstCandidates(base, n)
  {
    var s := Candidate(base, n);
    CandidatesAre(base, n, s);
    forall j: nat | j < n ensures s != Candidate(base, j) {
      if s == Candidate(base, j) {
        CandidateInjective(base, n, j);
      }
    }
  }

  lemma {:induction false} SubsetSize<T>(a: set<T>, b: set<T>)
    requires a <= b
    ensures |a| <= |b|
    decreases |a|
  {
    if a != {} {
      var x :| x in a;
      SubsetSize(a - {x}, b - {x});
    }
  }

  ghost predicate Taken(base: string, used: set<string>, n: nat) {
    forall j: nat :: j < n ==> Candidate(base, j) in used
  }

  /** Only so many candidates can be taken: the search ends. */
  lemma TakenAreFew(base: string, used: set<string>, n: nat)
    requires Taken(base, used, n)
    ensures n <= |used|
  {
    forall s | s in FirstCandidates(base, n) ensures s in used {
      CandidatesAre(base, n, s);
    }
    CandidatesCount(base, n);
    SubsetSize(FirstCandidates(base, n), used);
  }

  lemma TakenGrows(base: string, used: set<string>, n: nat)
    requires Taken(base, used, n) && Candidate(base, n) in used
    ensures Taken(base, used, n + 1)
  {
  }

  /** The candidate with the least suffix that is still free. */
  ghost predicate FirstFree(base: string, used: set<string>, out: string) {
    exists k: nat :: out == Candidate(base, k) && out !in used && Taken(base, used, k)
  }

  lemma FirstFreeUnique(base: string, used: set<string>, a: string, b: string)
    requires FirstFree(base, used, a) && FirstFree(base, used, b)
    ensures a == b
  {
    var k: nat :| a == Candidate(base, k) && a !in used && Taken(base, used, k);
    var l: nat :| b == Candidate(base, l) && b !in used && Taken(base, used, l);
    assert k == l;
  }

  ghost predicate LeastNumber(base: string, used: set<string>, k: nat) {
    && k >= 1 && base + "_" + Decimal(k) !in used
    && forall j: nat :: 1 <= j < k ==> base + "_" + Decimal(j) in used
  }

  /** A free header keeps its name; else the name gets an underscore and the least number from 1
      on that makes it free. */
  lemma FirstFreeIs(base: string, used: set<string>, out: string)
    requires FirstFree(base, used, out)
    ensures base !in used ==> out == base
    ensures base in used ==> exists k: nat :: LeastNumber(base, used, k) && out == base + "_" + Decimal(k)
  {
    var k: nat :| out == Candidate(base, k) && out !in used && Taken(base, used, k);
    assert k > 0 ==> Candidate(base, 0) in used;
    forall j: nat | 1 <= j < k ensures base + "_" + Decimal(j) in used {
      assert Candidate(base, j) in used;
    }
    assert k > 0 ==> LeastNumber(base, used, k);
  }

  /** The search loop: it ends, and finds the free candidate with the least suffix. */
  method FindFree(base: string, used: set<string>) returns (out: string)
    requires Identifier(base)
    ensures FirstFree(base, used, out) && Identifier(out)
  {
    out := base;
    var idx := 0;
    while out in used
      invariant out == Candidate(base, idx) && Taken(base, used, idx)
      decreases |used| - idx
    {
      TakenGrows(base, used, idx);
      TakenAreFew(base, used, idx + 1);
      idx := idx + 1;
      out := Candidate(base, idx);
    }
    CandidateIdentifier(base, idx);
  }

  /** normalize_column_name_for_sequence */
  method NormalizeForSequence(name: string, space: char -> bool, used: set<string>) returns (out: string, after: set<string>)
    ensures FirstFree(NormalizeColumnName(name, space), used, out)
    ensures Identifier(out) && out !in used && after == used + {out}
  {
    NormalizedIsIdentifier(name, space);
    out := FindFree(NormalizeColumnName(name, space), used);
    after := used + {out};
  }

  // ---------- the headers of a file ----------

  ghost function UsedAfter(used: set<string>, names: seq<string>): set<string> {
    used + set s | s in names
  }

  /** Each name is the first free candidate of its header after the names before it. */
  ghost predicate Renamed(headers: seq<string>, space: char -> bool, used: set<string>, names: seq<string>)
    decreases |headers|
  {
    |names| == |headers| &&
    (headers == [] ||
     var n := |headers| - 1;
     && Renamed(headers[..n], space, used, names[..n])
     && FirstFree(NormalizeColumnName(headers[n], space), UsedAfter(used, names[..n]), names[n]))
  }

  /** The renaming loops of the file loads. */
  method RenameColumns(headers: seq<string>, space: char -> bool, used: set<string>) returns (names: seq<string>)
    ensures Renamed(headers, space, used, names)
    ensures AllIdentifiers(names) && |names| == |headers|
    ensures forall i, j :: 0 <= i < j < |names| ==> names[i] != names[j]
    ensures forall s :: s in names ==> s !in used
  {
    names := [];
    var taken := used;
    var n := 0;
    while n < |headers|
      invariant 0 <= n <= |headers| && taken == UsedAfter(used, names)
      invariant Renamed(headers[..n], space, used, names)
      invariant AllIdentifiers(names) && Apart(names, used)
    {
      var name, after := NormalizeForSequence(headers[n], space, taken);
      OneMoreName(headers, n, space, used, names, name);
      OneMoreApart(used, names, name);
      taken := after;
      names := names + [name];
      n := n + 1;
    }
    assert headers[..n] == headers;
  }

  ghost predicate AllIdentifiers(names: seq<string>) {
    forall s :: s in names ==> Identifier(s)
  }

  /** Pairwise different, and none of the names taken before. */
  ghost predicate Apart(names: seq<string>, used: set<string>) {
    && (forall i, j :: 0 <= i < j < |names| ==> names[i] != names[j])
    && (forall s :: s in names ==> s !in used)
  }

  lemma TakeOneMore<T>(s: seq<T>, n: nat)
    requires n < |s|
    ensures s[..n + 1] == s[..n] + [s[n]]
  {
  }

  lemma OneMoreName(headers: seq<string>, n: nat, space: char -> bool, used: set<string>, names: seq<string>, name: string)
    requires n < |headers| && Renamed(headers[..n], space, used, names)
    requires FirstFree(NormalizeColumnName(headers[n], space), UsedAfter(used, names), name)
    ensures Renamed(headers[..n + 1], space, used, names + [name])
  {
    TakeOneMore(headers, n);
    RenamedSnoc(headers[..n], headers[n], space, used, names, name);
  }

  lemma RenamedSnoc(hs: seq<string>, h: string, space: char -> bool, used: set<string>, names: seq<string>, name: string)
    requires Renamed(hs, space, used, names) && FirstFree(NormalizeColumnName(h, space), UsedAfter(used, names), name)
    ensures Renamed(hs + [h], space, used, names + [name])
  {
    assert (hs + [h])[..|hs|] == hs && (names + [name])[..|hs|] == names;
  }

  lemma OneMoreApart(used: set<string>, names: seq<string>, name: string)
    requires Apart(names, used) && name !in UsedAfter(used, names)
    ensures Apart(names + [name], used)
    ensures UsedAfter(used, names + [name]) == UsedAfter(used, names) + {name}
  {
    assert forall s :: s in names + [name] <==> s in names || s == name;
  }

  lemma SameLast<T>(a: seq<T>, b: seq<T>, n: nat)
    requires |a| == |b| == n + 1 && a[..n] == b[..n] && a[n] == b[n]
    ensures a == b
  {
    assert a == a[..n] + [a[n]] && b == b[..n] + [b[n]];
  }

  /** The names a file gets are determined by its headers. */
  lemma {:induction false} RenamedOnce(headers: seq<string>, space: char -> bool, used: set<string>, a: seq<string>, b: seq<string>)
    requires Renamed(headers, space, used, a) && Renamed(headers, space, used, b)
    ensures a == b
    decreases |headers|
  {
    if headers != [] {
      var n := |headers| - 1;
      RenamedOnce(headers[..n], space, used, a[..n], b[..n]);
      FirstFreeUnique(NormalizeColumnName(headers[n], space), UsedAfter(used, a[..n]), a[n], b[n]);
      SameLast(a, b, n);
    }
  }
}
