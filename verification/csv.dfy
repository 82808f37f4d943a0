/** Writing tables as CSV, and reading them by section 2 of RFC 4180. */
module Csv {
  import opened Addresses

  const SEP := ','
  const DQUOTE := '"'
  const NL := "\r\n"

  /* What the writer puts out */

  predicate Special(c: char) {
    c == SEP || c == DQUOTE || c in NL
  }

  predicate NeedsQuotes(s: string) {
    exists i :: 0 <= i < |s| && Special(s[i])
  }

  function Escaped(c: char): string {
    if c == DQUOTE then [DQUOTE, DQUOTE] else [c]
  }

  function Doubled(s: string): string {
    if s == "" then "" else Escaped(s[0]) + Doubled(s[1..])
  }

  function Cell(s: string): string {
    if NeedsQuotes(s) then [DQUOTE] + Doubled(s) + [DQUOTE] else s
  }

  // Only a cell with a comma, a quote, a carriage return or a line feed in it is written otherwise than it is.
  lemma CellExact(s: string)
    ensures Cell(s) == s <==> forall c :: c in s ==> c != ',' && c != '"' && c != '\r' && c != '\n'
  {
    if NeedsQuotes(s) {
      var i :| 0 <= i < |s| && Special(s[i]);
      assert s[i] in s && (s[i] in NL ==> s[i] == '\r' || s[i] == '\n');
      DoubledLonger(s);
      assert |Cell(s)| == |Doubled(s)| + 2;
    } else {
      forall c | c in s
        ensures c != ',' && c != '"' && c != '\r' && c != '\n'
      {
        var i :| 0 <= i < |s| && s[i] == c;
        assert !Special(s[i]);
      }
    }
  }

  lemma {:induction false} DoubledLonger(s: string)
    ensures |Doubled(s)| >= |s|
  {
    if s != "" { DoubledLonger(s[1..]); }
  }

  function Tail(cells: seq<string>): string {
    if cells == [] then "" else [SEP] + Cell(cells[0]) + Tail(cells[1..])
  }

  // The cells of a row, a separator before each but the first
  function Line(cells: seq<string>): string
    requires cells != []
  {
    Cell(cells[0]) + Tail(cells[1..])
  }

  function Text(table: seq<seq<string>>): string
    requires AllRows(table)
  {
    if table == [] then "" else Line(table[0]) + NL + Text(table[1..])
  }

  // A row has at least one cell.
  predicate AllRows(table: seq<seq<string>>) {
    forall i :: 0 <= i < |table| ==> table[i] != []
  }

  lemma {:induction false} DoubledPlain(s: string)
    requires !NeedsQuotes(s)
    ensures Doubled(s) == s
  {
    if s != "" {
      assert !Special(s[0]);
      NoQuotesRest(s);
      DoubledPlain(s[1..]);
      assert s == [s[0]] + s[1..];
    }
  }

  lemma NoQuotesRest(s: string)
    requires s != "" && !NeedsQuotes(s)
    ensures !NeedsQuotes(s[1..])
  {
    assert forall i :: 0 <= i < |s[1..]| ==> s[1..][i] == s[i + 1];
  }

  function Lead(hasCol: bool): string {
    if hasCol then [SEP] else ""
  }

  lemma Join(a: string, b: string, c: string, d: string)
    ensures a + (b + c + d) == a + b + c + d
  {
  }

  lemma RowIs(os: string, hasCol: bool, cells: seq<string>)
    requires cells != []
    ensures os + (if hasCol then Tail(cells) else Line(cells)) == os + Lead(hasCol) + Cell(cells[0]) + Tail(cells[1..])
  {
    hide Cell;
    Join(os, Lead(hasCol), Cell(cells[0]), Tail(cells[1..]));
    assert "" + Cell(cells[0]) == Cell(cells[0]);
  }

  lemma TailNone(s: string)
    ensures s + Tail([]) == s
  {
  }

  class Writer {
    var os: string
    var hasCol: bool

    constructor ()
      ensures os == "" && !hasCol
    {
      os := "";
      hasCol := false;
    }

    method Nl()
      modifies this
      ensures os == old(os) + NL && !hasCol
    {
      hasCol := false;
      os := os + NL;
    }

    static method UsesQuotes(str: string) returns (useDquote: bool)
      ensures useDquote <==> NeedsQuotes(str)
    {
      useDquote := false;
      for i := 0 to |str|
        invariant !useDquote && forall j :: 0 <= j < i ==> !Special(str[j])
      {
        var c := str[i];
        if c == SEP || c == DQUOTE {
          useDquote := true;
          break;
        }
        for k := 0 to |NL|
          invariant !useDquote && c !in NL[..k]
        {
          if NL[k] == c {
            useDquote := true;
            break;
          }
        }
        if useDquote {
          break;
        }
        assert NL[..|NL|] == NL;
      }
    }

    // The characters of a cell, each quote twice
    method Put(str: string)
      modifies this`os
      ensures os == old(os) + Doubled(str)
    {
      var i := 0;
      assert str[0..] == str;
      while i < |str|
        invariant 0 <= i <= |str| && os + Doubled(str[i..]) == old(os) + Doubled(str)
      {
        ghost var was, rest := os, Doubled(str[i + 1..]);
        assert str[i..][1..] == str[i + 1..];
        if str[i] == DQUOTE {
          os := os + [DQUOTE];
        }
        os := os + [str[i]];
        assert os + rest == was + Doubled(str[i..]);
        i := i + 1;
      }
      assert str[i..] == "";
    }

    method PutCell(str: string)
      modifies this`os
      ensures os == old(os) + Cell(str)
    {
      hide NeedsQuotes, Doubled;
      var useDquote := UsesQuotes(str);
      if useDquote {
        os := os + [DQUOTE];
        Put(str);
        os := os + [DQUOTE];
        assert os == old(os) + ([DQUOTE] + Doubled(str) + [DQUOTE]);
      } else {
        DoubledPlain(str);
        Put(str);
      }
    }

    method Column(str: string)
      modifies this
      ensures os == old(os) + Lead(old(hasCol)) + Cell(str) && hasCol
    {
      hide Cell;
      if hasCol {
        os := os + [SEP];
      } else {
        assert os == os + Lead(false);
        hasCol := true;
      }
      PutCell(str);
    }

    // The recursion over a row's cells; a row begun by single columns is carried on.
    method Row(cells: seq<string>)
      requires cells != []
      modifies this
      ensures os == old(os) + (if old(hasCol) then Tail(cells) else Line(cells)) + NL && !hasCol
      decreases |cells|
    {
      hide Cell, Tail, Line, Lead;
      RowIs(os, hasCol, cells);
      Column(cells[0]);
      TailNone(os);
      if |cells| == 1 {
        assert cells[1..] == [];
        Nl();
      } else {
        Row(cells[1..]);
      }
    }

    method Table(table: seq<seq<string>>)
      requires os == "" && !hasCol && AllRows(table)
      modifies this
      ensures os == Text(table) && !hasCol
    {
      hide Line;
      var n := 0;
      assert table[0..] == table;
      while n < |table|
        invariant 0 <= n <= |table| && os + Text(table[n..]) == Text(table) && !hasCol
      {
        assert table[n..][1..] == table[n + 1..];
        Row(table[n]);
        n := n + 1;
      }
      assert table[n..] == [];
    }
  }

  /* Reading, by the rules of section 2 of RFC 4180 */

  datatype Part<T> = Part(value: T, rest: string)

  // An unquoted field ends before a comma, a quote or a line break.
  function ReadPlain(t: string): (p: Part<string>)
    ensures |p.rest| <= |t|
  {
    if t == "" || Special(t[0]) then Part("", t)
    else
      var p := ReadPlain(t[1..]);
      Part([t[0]] + p.value, p.rest)
  }

  // A quoted field, after its opening quote: two quotes stand for one, a single one closes.
  function ReadQuoted(t: string): (r: Option<Part<string>>)
    ensures r.Some? ==> |r.value.rest| < |t|
  {
    if t == "" then None
    else if t[0] == DQUOTE && (|t| == 1 || t[1] != DQUOTE) then Some(Part("", t[1..]))
    else
      var r := ReadQuoted(if t[0] == DQUOTE then t[2..] else t[1..]);
      if r.None? then None else Some(Part([t[0]] + r.value.value, r.value.rest))
  }

  function ReadField(t: string): (r: Option<Part<string>>)
    ensures r.Some? ==> |r.value.rest| <= |t|
  {
    if t != "" && t[0] == DQUOTE then ReadQuoted(t[1..]) else Some(ReadPlain(t))
  }

  // A record: fields separated by commas, up to a line break or the end of the text
  function ReadRecord(t: string): (r: Option<Part<seq<string>>>)
    ensures r.Some? ==> |r.value.rest| <= |t| && (t != "" ==> |r.value.rest| < |t|)
    decreases |t|
  {
    var f := ReadField(t);
    if f.None? then None
    else
      var rest := f.value.rest;
      if rest == "" then Some(Part([f.value.value], ""))
      else if NL <= rest then Some(Part([f.value.value], rest[|NL|..]))
      else if rest[0] == SEP then
        var more := ReadRecord(rest[1..]);
        if more.None? then None else Some(Part([f.value.value] + more.value.value, more.value.rest))
      else None
  }

  function ReadTable(t: string): Option<seq<seq<string>>>
    decreases |t|
  {
    if t == "" then Some([])
    else
      var row := ReadRecord(t);
      if row.None? then None
      else
        var more := ReadTable(row.value.rest);
        if more.None? then None else Some([row.value.value] + more.value)
  }

  /* Round trip */

  predicate Ends(rest: string) {
    rest != "" && (rest[0] == SEP || NL <= rest)
  }

  lemma ReadNext(c: char, u: string)
    ensures ReadQuoted(Escaped(c) + u) ==
            var r := ReadQuoted(u); if r.None? then None else Some(Part([c] + r.value.value, r.value.rest))
  {
    var t := Escaped(c) + u;
    assert t[|Escaped(c)|..] == u;
  }

  lemma ReadEnd(rest: string)
    requires Ends(rest)
    ensures ReadQuoted([DQUOTE] + rest) == Some(Part("", rest))
  {
    assert ([DQUOTE] + rest)[1..] == rest;
  }

  lemma {:induction false} QuotedBack(s: string, rest: string)
    requires Ends(rest)
    ensures ReadQuoted(Doubled(s) + ([DQUOTE] + rest)) == Some(Part(s, rest))
  {
    hide ReadQuoted, Ends, Escaped;
    if s == "" {
      ReadEnd(rest);
      assert "" + ([DQUOTE] + rest) == [DQUOTE] + rest;
    } else {
      var u := Doubled(s[1..]) + ([DQUOTE] + rest);
      QuotedBack(s[1..], rest);
      ReadNext(s[0], u);
      Assoc(Escaped(s[0]), Doubled(s[1..]), [DQUOTE] + rest);
      assert s == [s[0]] + s[1..];
    }
  }

  lemma Assoc(a: string, b: string, c: string)
    ensures a + b + c == a + (b + c)
  {
  }

  lemma {:induction false} PlainBack(s: string, rest: string)
    requires !NeedsQuotes(s) && Ends(rest)
    ensures ReadPlain(s + rest) == Part(s, rest)
  {
    if s == "" {
      assert s + rest == rest;
      assert NL[0] in NL;
      assert rest[0] == SEP || rest[0] == NL[0];
    } else {
      assert !Special(s[0]);
      NoQuotesRest(s);
      PlainBack(s[1..], rest);
      assert (s + rest)[1..] == s[1..] + rest && s == [s[0]] + s[1..];
    }
  }

  lemma QuotedCell(s: string, rest: string)
    requires NeedsQuotes(s)
    ensures var t := Cell(s) + rest; t != "" && t[0] == DQUOTE && t[1..] == Doubled(s) + ([DQUOTE] + rest)
  {
    hide NeedsQuotes, Doubled;
    Assoc([DQUOTE], Doubled(s), [DQUOTE]);
    Assoc([DQUOTE], Doubled(s) + [DQUOTE], rest);
    Assoc(Doubled(s), [DQUOTE], rest);
  }

  lemma PlainCell(s: string, rest: string)
    requires !NeedsQuotes(s) && Ends(rest)
    ensures Cell(s) == s && (s + rest)[0] != DQUOTE
  {
    assert s != "" ==> !Special(s[0]);
  }

  lemma FieldBack(s: string, rest: string)
    requires Ends(rest)
    ensures ReadField(Cell(s) + rest) == Some(Part(s, rest))
  {
    hide NeedsQuotes, Doubled, ReadQuoted, ReadPlain, Cell, Ends;
    if NeedsQuotes(s) {
      QuotedCell(s, rest);
      QuotedBack(s, rest);
    } else {
      PlainCell(s, rest);
      PlainBack(s, rest);
    }
  }

  lemma Next(s: string, rest: string, t: string)
    requires t == Cell(s) + rest && Ends(rest)
    ensures var r := ReadField(t); r.Some? && r.value.value == s && r.value.rest == rest
  {
    FieldBack(s, rest);
  }

  lemma {:induction false} RecordBack(cells: seq<string>, rest: string)
    requires cells != []
    ensures ReadRecord(Line(cells) + (NL + rest)) == Some(Part(cells, rest))
    decreases |cells|
  {
    hide Cell, ReadField;
    var t := Line(cells) + (NL + rest);
    if |cells| == 1 {
      assert t == Cell(cells[0]) + (NL + rest);
      Next(cells[0], NL + rest, t);
      assert (NL + rest)[|NL|..] == rest;
      assert cells == [cells[0]];
    } else {
      var more := cells[1..];
      var u := Line(more) + (NL + rest);
      assert Tail(more) == [SEP] + Line(more);
      assert t == Cell(cells[0]) + ([SEP] + u);
      Next(cells[0], [SEP] + u, t);
      assert ([SEP] + u)[1..] == u;
      RecordBack(more, rest);
      assert cells == [cells[0]] + more;
    }
  }

  // Reading what was written gives the table back.
  lemma {:induction false} RoundTrip(table: seq<seq<string>>)
    requires AllRows(table)
    ensures ReadTable(Text(table)) == Some(table)
  {
    hide Line, ReadRecord;
    if table != [] {
      RecordBack(table[0], Text(table[1..]));
      Assoc(Line(table[0]), NL, Text(table[1..]));
      RoundTrip(table[1..]);
      assert table == [table[0]] + table[1..];
    }
  }

  // So no two tables are written alike.
  lemma Injective(a: seq<seq<string>>, b: seq<seq<string>>)
    requires AllRows(a) && AllRows(b) && Text(a) == Text(b)
    ensures a == b
  {
    RoundTrip(a);
    RoundTrip(b);
  }
}
