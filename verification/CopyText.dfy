/** The COPY text printer of db_load_service, and the reader of PostgreSQL's COPY command for
    FORMAT text with NULL '\N' (PostgreSQL manual, COPY, "File Formats", "Text Format"). */
module CopyText {
  import opened Wrappers

  /** A Python cell by the branch of the serializer it takes. NotANumber covers NaN, the
      infinities and NaT; Other is everything printed through str, isoformat or json.dumps. */
  datatype PyValue =
    | PyNone
    | NotANumber
    | Boolean(b: bool)
    | Decimal(digits: string)
    | Other(text: string)

  type Cell = Option<string>

  predicate Special(c: char) {
    c == '\\' || c == '\t' || c == '\n' || c == '\r'
  }

  /** Python prints a finite decimal with digits, sign, point and exponent only. */
  predicate Printable(v: PyValue) {
    v.Decimal? ==> forall i :: 0 <= i < |v.digits| ==> !Special(v.digits[i])
  }

  predicate AllPrintable(row: seq<PyValue>) {
    forall i :: 0 <= i < |row| ==> Printable(row[i])
  }

  /** The database value a cell stands for. */
  function Meaning(v: PyValue): Cell {
    match v
    case PyNone => None
    case NotANumber => None
    case Boolean(b) => Some(if b then "true" else "false")
    case Decimal(digits) => Some(digits)
    case Other(text) => Some(text)
  }

  // ---------- printing ----------

  /** str.replace with a one-character pattern. */
  function Replace(s: string, c: char, repl: string): string {
    if s == "" then "" else (if s[0] == c then repl else [s[0]]) + Replace(s[1..], c, repl)
  }

  function EscapeInFourPasses(s: string): string {
    Replace(Replace(Replace(Replace(s, '\\', "\\\\"), '\t', "\\t"), '\n', "\\n"), '\r', "\\r")
  }

  function SerializeValue(v: PyValue): string {
    match v
    case PyNone => "\\N"
    case NotANumber => "\\N"
    case Boolean(b) => if b then "true" else "false"
    case Decimal(digits) => digits
    case Other(text) => EscapeInFourPasses(text)
  }

  function Join(sep: string, parts: seq<string>): string {
    if parts == [] then ""
    else if |parts| == 1 then parts[0]
    else parts[0] + sep + Join(sep, parts[1..])
  }

  /** The cells of one row: missing trailing values are NULL, surplus values are dropped. */
  function CellTexts(columns: nat, row: seq<PyValue>): (cells: seq<string>)
    ensures |cells| == columns
  {
    seq(columns, i requires 0 <= i < columns => if i < |row| then SerializeValue(row[i]) else "\\N")
  }

  function Lines(columns: nat, rows: seq<seq<PyValue>>): (lines: seq<string>)
    ensures |lines| == |rows|
  {
    seq(|rows|, r requires 0 <= r < |rows| => Join("\t", CellTexts(columns, rows[r])))
  }

  function Buffer(columns: nat, rows: seq<seq<PyValue>>): string {
    Join("\n", Lines(columns, rows)) + "\n"
  }

  /** What the buffer is meant to carry. */
  function Matrix(columns: nat, rows: seq<seq<PyValue>>): (m: seq<seq<Cell>>)
    ensures |m| == |rows|
    ensures forall r :: 0 <= r < |m| ==> |m[r]| == columns
  {
    seq(|rows|, r requires 0 <= r < |rows| =>
      seq(columns, i requires 0 <= i < columns => if i < |rows[r]| then Meaning(rows[r][i]) else None))
  }

  method CopyBuf(columns: nat, rows: seq<seq<PyValue>>) returns (buf: string)
    ensures buf == Buffer(columns, rows)
  {
    var lines: seq<string> := [];
    for r := 0 to |rows|
      invariant lines == Lines(columns, rows)[..r]
    {
      var cells: seq<string> := [];
      for i := 0 to columns
        invariant cells == CellTexts(columns, rows[r])[..i]
      {
        var cell := if i < |rows[r]| then SerializeValue(rows[r][i]) else "\\N";
        cells := cells + [cell];
      }
      assert cells == CellTexts(columns, rows[r]);
      lines := lines + [Join("\t", cells)];
      assert lines[r] == Lines(columns, rows)[r];
    }
    assert lines == Lines(columns, rows);
    buf := Join("\n", lines) + "\n";
  }

  // ---------- reading ----------

  predicate Octal(c: char) {
    '0' <= c <= '7'
  }

  function DigitValue(c: char): (d: nat)
    ensures d < 16
  {
    if '0' <= c <= '9' then (c - '0') as nat
    else if 'a' <= c <= 'f' then (c - 'a') as nat + 10
    else if 'A' <= c <= 'F' then (c - 'A') as nat + 10
    else 0
  }

  predicate Hex(c: char) {
    '0' <= c <= '9' || 'a' <= c <= 'f' || 'A' <= c <= 'F'
  }

  /** How many of at most `most` leading characters satisfy the class. */
  function Run(s: string, most: nat, octal: bool): (n: nat)
    ensures n <= most && n <= |s|
  {
    if most == 0 || s == "" || !(if octal then Octal(s[0]) else Hex(s[0])) then 0
    else 1 + Run(s[1..], most - 1, octal)
  }

  function NumberOf(s: string, base: nat, acc: nat): nat {
    if s == "" then acc else NumberOf(s[1..], base, acc * base + DigitValue(s[0]))
  }

  /** The character a backslash sequence stands for and the length of the sequence after the
      backslash. */
  function BackslashSequence(s: string): (r: (char, nat))
    requires s != ""
    ensures 1 <= r.1 <= |s|
  {
    var c := s[0];
    if c == 'b' then (8 as char, 1)
    else if c == 'f' then (12 as char, 1)
    else if c == 'n' then ('\n', 1)
    else if c == 'r' then ('\r', 1)
    else if c == 't' then ('\t', 1)
    else if c == 'v' then (11 as char, 1)
    else if Octal(c) then
      var n := Run(s, 3, true);
      ((NumberOf(s[..n], 8, 0) % 256) as char, n)
    else if c == 'x' && Run(s[1..], 2, false) > 0 then
      var n := Run(s[1..], 2, false);
      ((NumberOf(s[1..1 + n], 16, 0) % 256) as char, 1 + n)
    else (c, 1)
  }

  function Unescape(raw: string): string
    decreases |raw|
  {
    if raw == "" then ""
    else if raw[0] == '\\' && |raw| > 1 then
      var (c, n) := BackslashSequence(raw[1..]);
      [c] + Unescape(raw[1 + n..])
    else [raw[0]] + Unescape(raw[1..])
  }

  /** The NULL marker is compared before backslashes are interpreted. */
  function FieldValue(raw: string): Cell {
    if raw == "\\N" then None else Some(Unescape(raw))
  }

  /** The reader, inside a line whose finished cells are `cells` and whose current field has
      the raw text `raw`. A backslash shields the next character from being a delimiter; a
      line consisting of \. ends the data; a bare carriage return is an error. */
  function Read(s: string, cells: seq<Cell>, raw: string): Result<seq<seq<Cell>>>
    decreases |s|
  {
    if s == "" then
      Ok(if cells == [] && raw == "" then [] else [cells + [FieldValue(raw)]])
    else if s[0] == '\\' && |s| > 1 then
      if s[1] == '.' && cells == [] && raw == "" && (|s| == 2 || s[2] == '\n') then Ok([])
      else if s[1] == '.' then Err("end-of-copy marker corrupt")
      else Read(s[2..], cells, raw + s[..2])
    else if s[0] == '\t' then Read(s[1..], cells + [FieldValue(raw)], "")
    else if s[0] == '\r' then Err("literal carriage return found in data")
    else if s[0] == '\n' then
      var rest := Read(s[1..], [], "");
      if rest.Err? then rest else Ok([cells + [FieldValue(raw)]] + rest.value)
    else Read(s[1..], cells, raw + [s[0]])
  }

  /** The fields of each line, whatever their number. */
  function FieldsOf(s: string): Result<seq<seq<Cell>>> {
    Read(s, [], "")
  }

  /** The row a line makes for a column list of the given length. For an empty list the line has
      to be empty, which as a line of fields is one empty string. */
  function RowOf(columns: nat, line: seq<Cell>): Result<seq<Cell>> {
    if columns == 0 && line == [Some("")] then Ok([])
    else if |line| < columns then Err("missing data for column")
    else if |line| > columns then Err("extra data after last expected column")
    else Ok(line)
  }

  function RowsOf(columns: nat, lines: seq<seq<Cell>>): Result<seq<seq<Cell>>> {
    if lines == [] then Ok([])
    else
      match RowOf(columns, lines[0])
      case Err(e) => Err(e)
      case Ok(row) =>
        match RowsOf(columns, lines[1..])
        case Err(e) => Err(e)
        case Ok(rows) => Ok([row] + rows)
  }

  /** COPY into a list of so many columns. */
  function CopyFrom(columns: nat, s: string): Result<seq<seq<Cell>>> {
    match FieldsOf(s)
    case Err(e) => Err(e)
    case Ok(lines) => RowsOf(columns, lines)
  }

  /** Why a backslash must not go out as it is: a line that starts with an unescaped \. ends the
      data, whatever follows. */
  lemma EndMarkerEnds(rest: string)
    ensures FieldsOf("\\.") == Ok([]) && FieldsOf("\\.\n" + rest) == Ok([])
    ensures FieldsOf("a\\.\n" + rest).Err?
  {
    var s := "a\\.\n" + rest;
    var tail := s[1..];
    assert s[0] == 'a' && tail[0] == '\\' && tail[1] == '.' && |tail| > 1;
    assert Read(s, [], "") == Read(tail, [], "" + [s[0]]);
  }

  /** The backslash sequences this writer never produces. */
  lemma OtherSequences()
    ensures Unescape("\\b") == [8 as char] && Unescape("\\v") == [11 as char] && Unescape("\\f") == [12 as char]
  {
    ReadsOne("b", 8 as char);
    ReadsOne("v", 11 as char);
    ReadsOne("f", 12 as char);
  }

  lemma ReadsOne(s: string, c: char)
    requires |s| == 1 && BackslashSequence(s) == (c, 1)
    ensures Unescape("\\" + s) == [c]
  {
    var raw := "\\" + s;
    assert raw[1..] == s && raw[2..] == "";
    assert Unescape(raw[2..]) == "";
  }

  /** Up to three octal digits after a backslash, or two hexadecimal ones after \x, name a byte. */
  lemma NumbersRead(a: nat, b: nat, c: nat)
    requires a < 8 && b < 8 && c < 8
    ensures BackslashSequence(Digits([a, b, c])) == (((64 * a + 8 * b + c) % 256) as char, 3)
    ensures BackslashSequence(Digits([a, b, c]) + "7") == (((64 * a + 8 * b + c) % 256) as char, 3)
    ensures BackslashSequence("x" + Digits([a, b])) == ((16 * a + b) as char, 3)
  {
    var s := Digits([a, b, c]);
    assert s == [s[0]] + ([s[1]] + ([s[2]] + ""));
    assert s[1..][1..] == [s[2]] && s[1..] == [s[1], s[2]];
    OctalRun(s);
    OctalRun(s + "7");
    assert s[..3] == s && (s + "7")[..3] == s;
    OctalNumber(a, b, c);
    HexRun(a, b);
  }

  function Digits(ds: seq<nat>): (s: string)
    requires forall i :: 0 <= i < |ds| ==> ds[i] < 8
    ensures |s| == |ds| && forall i :: 0 <= i < |ds| ==> s[i] == ('0' as int + ds[i]) as char
  {
    seq(|ds|, i requires 0 <= i < |ds| => ('0' as int + ds[i]) as char)
  }

  lemma OctalRun(s: string)
    requires 3 <= |s| && Octal(s[0]) && Octal(s[1]) && Octal(s[2])
    ensures Run(s, 3, true) == 3
  {
    assert s[1..][1..] == s[2..];
    assert Run(s[2..], 1, true) == 1;
    assert Run(s[1..], 2, true) == 2;
  }

  lemma OctalNumber(a: nat, b: nat, c: nat)
    requires a < 8 && b < 8 && c < 8
    ensures NumberOf(Digits([a, b, c]), 8, 0) == 64 * a + 8 * b + c
  {
    var s := Digits([a, b, c]);
    assert NumberOf(s, 8, 0) == NumberOf(s[1..], 8, a);
    assert NumberOf(s[1..], 8, a) == NumberOf(s[1..][1..], 8, 8 * a + b);
    assert s[1..][1..][1..] == "";
    assert NumberOf(s[1..][1..], 8, 8 * a + b) == NumberOf("", 8, 64 * a + 8 * b + c);
  }

  lemma HexRun(a: nat, b: nat)
    requires a < 8 && b < 8
    ensures BackslashSequence("x" + Digits([a, b])) == ((16 * a + b) as char, 3)
  {
    var d := Digits([a, b]);
    var s := "x" + d;
    assert s[1..] == d && s[1..1 + 2] == d && d[1..][1..] == "";
    assert Run(d[1..], 1, false) == 1;
    assert Run(d, 2, false) == 2;
    assert NumberOf(d, 16, 0) == NumberOf(d[1..], 16, a);
    assert NumberOf(d[1..], 16, a) == NumberOf(d[1..][1..], 16, 16 * a + b);
  }

  // ---------- four passes are one ----------

  function EscapeChar(c: char): string {
    if c == '\\' then "\\\\"
    else if c == '\t' then "\\t"
    else if c == '\n' then "\\n"
    else if c == '\r' then "\\r"
    else [c]
  }

  function Escape(s: string): string {
    if s == "" then "" else EscapeChar(s[0]) + Escape(s[1..])
  }

  lemma {:induction false} ReplaceConcat(a: string, b: string, c: char, repl: string)
    ensures Replace(a + b, c, repl) == Replace(a, c, repl) + Replace(b, c, repl)
  {
    if a == "" {
      assert a + b == b;
    } else {
      assert (a + b)[1..] == a[1..] + b;
      ReplaceConcat(a[1..], b, c, repl);
    }
  }

  /** Escaping a character in four passes: the backslashes a later pass introduces are not
      doubled, because the backslash pass came first. */
  lemma FourPassesOnChar(c: char)
    ensures EscapeInFourPasses([c]) == EscapeChar(c)
  {
    ReplaceShort(c, '\\', "\\\\");
    var one := Replace([c], '\\', "\\\\");
    ReplaceEach(one, '\t', "\\t");
    var two := Replace(one, '\t', "\\t");
    ReplaceEach(two, '\n', "\\n");
    var three := Replace(two, '\n', "\\n");
    ReplaceEach(three, '\r', "\\r");
  }

  lemma ReplaceShort(d: char, c: char, repl: string)
    ensures Replace([d], c, repl) == if d == c then repl else [d]
  {
    assert Replace("", c, repl) == "";
  }

  lemma ReplaceEach(s: string, c: char, repl: string)
    requires 1 <= |s| <= 2
    ensures Replace(s, c, repl) == (if s[0] == c then repl else [s[0]]) + (if |s| == 1 then "" else if s[1] == c then repl else [s[1]])
  {
    ReplaceShort(s[0], c, repl);
    if |s| == 2 {
      assert s == [s[0]] + [s[1]];
      ReplaceConcat([s[0]], [s[1]], c, repl);
      ReplaceShort(s[1], c, repl);
    } else {
      assert s == [s[0]];
    }
  }

  lemma {:induction false} FourPassesAreOne(s: string)
    ensures EscapeInFourPasses(s) == Escape(s)
  {
    if s != "" {
      FourPassesOnChar(s[0]);
      FourPassesAreOne(s[1..]);
      assert s == [s[0]] + s[1..];
      FourPassesConcat([s[0]], s[1..]);
    }
  }

  lemma FourPassesConcat(a: string, b: string)
    ensures EscapeInFourPasses(a + b) == EscapeInFourPasses(a) + EscapeInFourPasses(b)
  {
    var a1, b1 := Replace(a, '\\', "\\\\"), Replace(b, '\\', "\\\\");
    ReplaceConcat(a, b, '\\', "\\\\");
    var a2, b2 := Replace(a1, '\t', "\\t"), Replace(b1, '\t', "\\t");
    ReplaceConcat(a1, b1, '\t', "\\t");
    var a3, b3 := Replace(a2, '\n', "\\n"), Replace(b2, '\n', "\\n");
    ReplaceConcat(a2, b2, '\n', "\\n");
    ReplaceConcat(a3, b3, '\r', "\\r");
  }

  // ---------- one cell ----------

  lemma {:induction false} PlainEscape(s: string)
    requires forall i :: 0 <= i < |s| ==> !Special(s[i])
    ensures Escape(s) == s
  {
    if s != "" {
      PlainEscape(s[1..]);
      assert s == [s[0]] + s[1..];
    }
  }

  /** Every cell prints as \N or as the escape of its meaning. */
  lemma SerializedForm(v: PyValue)
    requires Printable(v)
    ensures SerializeValue(v) == if Meaning(v).None? then "\\N" else Escape(Meaning(v).value)
  {
    match v
    case Other(text) => FourPassesAreOne(text);
    case Decimal(digits) => PlainEscape(digits);
    case Boolean(b) => PlainEscape(if b then "true" else "false");
    case _ =>
  }

  lemma {:induction false} UnescapeEscape(s: string)
    ensures Unescape(Escape(s)) == s
  {
    if s != "" {
      UnescapeEscape(s[1..]);
      UnescapeChar(s[0], Escape(s[1..]));
      assert s == [s[0]] + s[1..];
    }
  }

  lemma UnescapeChar(c: char, rest: string)
    ensures Unescape(EscapeChar(c) + rest) == [c] + Unescape(rest)
  {
    var e := EscapeChar(c);
    if Special(c) {
      assert (e + rest)[1..] == [e[1]] + rest && (e + rest)[2..] == rest;
      assert BackslashSequence([e[1]] + rest) == (c, 1);
    } else {
      assert (e + rest)[1..] == rest;
    }
  }

  lemma EscapeIsNotNull(s: string)
    ensures Escape(s) != "\\N"
  {
    if s != "" {
      var e := EscapeChar(s[0]);
      assert Escape(s) == e + Escape(s[1..]);
      if Special(s[0]) {
        assert |e| == 2 && Escape(s)[1] == e[1] != 'N';
      } else {
        assert Escape(s)[0] == s[0] != '\\';
      }
    }
  }

  lemma CellRoundTrip(v: PyValue)
    requires Printable(v)
    ensures FieldValue(SerializeValue(v)) == Meaning(v)
  {
    SerializedForm(v);
    if Meaning(v).Some? {
      EscapeIsNotNull(Meaning(v).value);
      UnescapeEscape(Meaning(v).value);
    }
  }

  /** Two cells print alike exactly when they mean the same database value: NULL, the empty
      string and the text \N stay three different things. */
  lemma SerializeFaithful(a: PyValue, b: PyValue)
    requires Printable(a) && Printable(b)
    ensures SerializeValue(a) == SerializeValue(b) <==> Meaning(a) == Meaning(b)
  {
    SerializedForm(a);
    SerializedForm(b);
    CellRoundTrip(a);
    CellRoundTrip(b);
  }

  // ---------- reading back what was printed ----------

  /** The reader takes escaped text into the current field whole: no content can end the cell
      or the row, or look like the end marker. */
  lemma {:induction false} ReadEscaped(s: string, rest: string, cells: seq<Cell>, raw: string)
    ensures Read(Escape(s) + rest, cells, raw) == Read(rest, cells, raw + Escape(s))
    decreases |s|
  {
    if s == "" {
      assert Escape(s) + rest == rest;
      assert raw + Escape(s) == raw;
    } else {
      var e, tail := EscapeChar(s[0]), Escape(s[1..]);
      assert Escape(s) + rest == e + (tail + rest);
      ReadEscapedChar(s[0], tail + rest, cells, raw);
      ReadEscaped(s[1..], rest, cells, raw + e);
      assert raw + e + tail == raw + Escape(s);
    }
  }

  lemma ReadEscapedChar(c: char, rest: string, cells: seq<Cell>, raw: string)
    ensures Read(EscapeChar(c) + rest, cells, raw) == Read(rest, cells, raw + EscapeChar(c))
  {
    var e := EscapeChar(c);
    assert (e + rest)[..|e|] == e && (e + rest)[|e|..] == rest;
  }

  lemma ReadNull(rest: string, cells: seq<Cell>)
    ensures Read("\\N" + rest, cells, "") == Read(rest, cells, "\\N")
  {
    var text := "\\N" + rest;
    assert text[..2] == "\\N" && text[2..] == rest;
    assert "" + "\\N" == "\\N";
  }

  lemma ReadCell(v: PyValue, rest: string, cells: seq<Cell>)
    requires Printable(v)
    ensures Read(SerializeValue(v) + rest, cells, "") == Read(rest, cells, SerializeValue(v))
  {
    SerializedForm(v);
    if Meaning(v).None? {
      ReadNull(rest, cells);
    } else {
      ReadEscaped(Meaning(v).value, rest, cells, "");
      assert "" + SerializeValue(v) == SerializeValue(v);
    }
  }

  /** Reading one printed line, from its i-th cell on. */
  lemma {:induction false} ReadLine(values: seq<PyValue>, rest: string, cells: seq<Cell>)
    requires values != [] && AllPrintable(values)
    ensures Read(Join("\t", Texts(values)) + "\n" + rest, cells, "") == Read("\n" + rest, cells + Meanings(values[..|values| - 1]), SerializeValue(values[|values| - 1]))
    decreases |values|
  {
    var v := values[0];
    if |values| == 1 {
      assert Texts(values) == [SerializeValue(v)];
      assert Join("\t", Texts(values)) + "\n" + rest == SerializeValue(v) + ("\n" + rest);
      ReadCell(v, "\n" + rest, cells);
      assert Meanings(values[..0]) == [];
      assert cells + [] == cells;
    } else {
      var line := Join("\t", Texts(values[1..])) + "\n" + rest;
      LineStep(values, rest);
      ReadCell(v, "\t" + line, cells);
      assert ("\t" + line)[1..] == line;
      CellRoundTrip(v);
      ReadLine(values[1..], rest, cells + [Meaning(v)]);
      MeaningsCons(values, cells);
    }
  }

  lemma MeaningsCons(values: seq<PyValue>, cells: seq<Cell>)
    requires |values| > 1
    ensures values[1..][|values| - 2] == values[|values| - 1]
    ensures cells + [Meaning(values[0])] + Meanings(values[1..][..|values| - 2]) == cells + Meanings(values[..|values| - 1])
  {
    assert [Meaning(values[0])] + Meanings(values[1..][..|values| - 2]) == Meanings(values[..|values| - 1]);
  }

  lemma LineStep(values: seq<PyValue>, rest: string)
    requires |values| > 1
    ensures Join("\t", Texts(values)) + "\n" + rest
      == SerializeValue(values[0]) + ("\t" + (Join("\t", Texts(values[1..])) + "\n" + rest))
  {
    assert Texts(values)[1..] == Texts(values[1..]);
  }

  function Texts(values: seq<PyValue>): (r: seq<string>)
    ensures |r| == |values|
  {
    seq(|values|, i requires 0 <= i < |values| => SerializeValue(values[i]))
  }

  function Meanings(values: seq<PyValue>): (r: seq<Cell>)
    ensures |r| == |values|
  {
    seq(|values|, i requires 0 <= i < |values| => Meaning(values[i]))
  }

  lemma ReadWholeLine(values: seq<PyValue>, rest: string)
    requires values != [] && AllPrintable(values)
    ensures var r := FieldsOf(rest);
      FieldsOf(Join("\t", Texts(values)) + "\n" + rest) == if r.Err? then r else Ok([Meanings(values)] + r.value)
  {
    var last := values[|values| - 1];
    ReadLine(values, rest, []);
    CellRoundTrip(last);
    assert ("\n" + rest)[1..] == rest;
    assert [] + Meanings(values[..|values| - 1]) + [Meaning(last)] == Meanings(values);
  }

  /** A row cut or padded to the column count, so that missing cells are PyNone. */
  function Fitted(columns: nat, row: seq<PyValue>): (r: seq<PyValue>)
    ensures |r| == columns
  {
    seq(columns, i requires 0 <= i < columns => if i < |row| then row[i] else PyNone)
  }

  lemma FittedCells(columns: nat, row: seq<PyValue>)
    requires AllPrintable(row)
    ensures Texts(Fitted(columns, row)) == CellTexts(columns, row)
    ensures AllPrintable(Fitted(columns, row))
  {
  }

  lemma BufferStep(columns: nat, rows: seq<seq<PyValue>>)
    requires |rows| > 1
    ensures Buffer(columns, rows) == Join("\t", CellTexts(columns, rows[0])) + "\n" + Buffer(columns, rows[1..])
  {
    assert Lines(columns, rows)[1..] == Lines(columns, rows[1..]);
  }

  lemma {:induction false} BufferReads(columns: nat, rows: seq<seq<PyValue>>)
    requires columns >= 1 && rows != []
    requires forall r :: 0 <= r < |rows| ==> AllPrintable(rows[r])
    ensures FieldsOf(Buffer(columns, rows)) == Ok(Matrix(columns, rows))
    decreases |rows|
  {
    var first := Fitted(columns, rows[0]);
    FittedCells(columns, rows[0]);
    var line := Join("\t", CellTexts(columns, rows[0]));
    assert Meanings(first) == Matrix(columns, rows)[0];
    if |rows| == 1 {
      assert Lines(columns, rows) == [line];
      assert Buffer(columns, rows) == line + "\n" + "";
      ReadWholeLine(first, "");
      assert [Meanings(first)] + [] == Matrix(columns, rows);
    } else {
      BufferStep(columns, rows);
      BufferReads(columns, rows[1..]);
      ReadWholeLine(first, Buffer(columns, rows[1..]));
      assert [Meanings(first)] + Matrix(columns, rows[1..]) == Matrix(columns, rows);
    }
  }

  /** A row list without columns prints as one empty line per row. */
  lemma {:induction false} EmptyLines(rows: seq<seq<PyValue>>)
    requires rows != []
    ensures FieldsOf(Buffer(0, rows)).Ok?
    ensures RowsOf(0, FieldsOf(Buffer(0, rows)).value) == Ok(Matrix(0, rows))
    decreases |rows|
  {
    assert CellTexts(0, rows[0]) == [];
    if |rows| == 1 {
      assert Lines(0, rows) == [""];
      assert Buffer(0, rows) == "\n";
      var lines := OneEmptyLine();
      assert Matrix(0, rows) == [[]];
    } else {
      BufferStep(0, rows);
      EmptyLines(rows[1..]);
      var text := Buffer(0, rows[1..]);
      assert Buffer(0, rows) == "\n" + text && ("\n" + text)[1..] == text;
      assert FieldsOf("\n" + text) == Ok([[Some("")]] + FieldsOf(text).value);
      assert Matrix(0, rows) == [[]] + Matrix(0, rows[1..]);
    }
  }

  lemma OneEmptyLine() returns (lines: seq<seq<Cell>>)
    ensures FieldsOf("\n") == Ok(lines) && lines == [[Some("")]]
    ensures RowsOf(0, lines) == Ok([[]])
  {
    assert "\n"[1..] == "" && Read("", [], "") == Ok([]);
    assert [] + [FieldValue("")] == [Some("")] && [[Some("")]] + [] == [[Some("")]];
    lines := [[Some("")]];
    var row: seq<Cell> := [];
    assert lines[1..] == [] && RowOf(0, lines[0]) == Ok(row) && [row] + [] == [row];
  }

  lemma {:induction false} FittingRows(columns: nat, lines: seq<seq<Cell>>)
    requires columns >= 1 && forall i :: 0 <= i < |lines| ==> |lines[i]| == columns
    ensures RowsOf(columns, lines) == Ok(lines)
  {
    if lines != [] {
      FittingRows(columns, lines[1..]);
      assert [lines[0]] + lines[1..] == lines;
    }
  }

  /** COPY into the same columns reads the buffer back as exactly the padded and truncated
      matrix, unless there are no rows: the buffer of an empty row list is one empty line, which
      makes a row or an error. The callers return early on an empty row list. */
  lemma CopyRoundTripExactly(columns: nat, rows: seq<seq<PyValue>>)
    requires forall r :: 0 <= r < |rows| ==> AllPrintable(rows[r])
    ensures CopyFrom(columns, Buffer(columns, rows)) == Ok(Matrix(columns, rows)) <==> rows != []
  {
    if rows == [] {
      assert Buffer(columns, rows) == "\n";
      var lines := OneEmptyLine();
      assert Matrix(columns, rows) == [];
    } else if columns == 0 {
      EmptyLines(rows);
    } else {
      BufferReads(columns, rows);
      FittingRows(columns, Matrix(columns, rows));
    }
  }
}
