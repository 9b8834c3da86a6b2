/**
 The CSV writer of the SDMA benchmark and the grammar of section 2 of RFC 4180 that its
 output is read with (records end in a newline; any character but comma, quote and newline
 is text).
 */
module CsvWriter {
  /** A value of a row: a std::string, or anything streamed as it is (numbers, literals). */
  datatype Cell = Text(text: string) | Raw(text: string)

  const QUOTE: char := '"'

  predicate Reserved(c: char) { c == ',' || c == QUOTE || c == '\n' }

  predicate NeedsQuotes(s: string) { exists i :: 0 <= i < |s| && Reserved(s[i]) }

  /** Every quote doubled. */
  function Doubled(s: string): string {
    if s == [] then [] else Doubled(s[..|s| - 1]) + (if s[|s| - 1] == QUOTE then [QUOTE, QUOTE] else [s[|s| - 1]])
  }

  function Print(cell: Cell): string {
    match cell
    case Raw(t) => t
    case Text(t) => if NeedsQuotes(t) then [QUOTE] + Doubled(t) + [QUOTE] else Doubled(t)
  }

  /** Cells with separators, without the end of the record. */
  function Joined(cells: seq<Cell>): string {
    if cells == [] then []
    else Joined(cells[..|cells| - 1]) + (if |cells| > 1 then [','] else []) + Print(cells[|cells| - 1])
  }

  function Record(cells: seq<Cell>): string { Joined(cells) + ['\n'] }

  class Writer {
    var stream: string

    constructor ()
      ensures stream == []
    {
      stream := [];
    }

    method WriteSeparator(first: bool) returns (stillFirst: bool)
      modifies this
      ensures !stillFirst && stream == old(stream) + if first then [] else [',']
    {
      if !first {
        stream := stream + [','];
      }
      stillFirst := false;
    }

    /** writeValue for strings and the template for everything else. */
    method WriteValue(cell: Cell, first: bool) returns (stillFirst: bool)
      modifies this
      ensures !stillFirst && stream == old(stream) + (if first then [] else [',']) + Print(cell)
    {
      stillFirst := WriteSeparator(first);
      match cell
      case Raw(t) => stream := stream + t;
      case Text(t) =>
        var quoted := NeedsQuotes(t);
        if quoted {
          stream := stream + [QUOTE];
        }
        ghost var before := stream;
        var i := 0;
        while i < |t|
          invariant i <= |t| && stream == before + Doubled(t[..i])
        {
          assert t[..i + 1][..i] == t[..i];
          if t[i] == QUOTE {
            stream := stream + [QUOTE];
          }
          stream := stream + [t[i]];
          i := i + 1;
        }
        assert t[..i] == t;
        if quoted {
          stream := stream + [QUOTE];
        }
    }

    /** writeRow; the header is a row of strings. */
    method WriteRow(cells: seq<Cell>)
      modifies this
      ensures stream == old(stream) + Record(cells)
    {
      hide Joined; hide Print;
      var first := true;
      var i := 0;
      JoinedStart(cells);
      while i < |cells|
        invariant i <= |cells| && first == (i == 0)
        invariant stream == old(stream) + Joined(cells[..i])
      {
        JoinedNext(cells, i);
        first := WriteValue(cells[i], first);
        i := i + 1;
      }
      assert cells[..i] == cells;
      stream := stream + ['\n'];
    }
  }

  lemma JoinedStart(cells: seq<Cell>)
    ensures Joined(cells[..0]) == []
  {
  }

  lemma JoinedNext(cells: seq<Cell>, i: nat)
    requires i < |cells|
    ensures Joined(cells[..i + 1]) == Joined(cells[..i]) + ((if i == 0 then [] else [',']) + Print(cells[i]))
  {
    hide Print;
    assert cells[..i + 1][..i] == cells[..i];
  }

  // ---------------------------------------------------------------- the grammar

  datatype Field = BadField | Field(value: string, rest: string)

  datatype Row = BadRow | Row(fields: seq<string>, rest: string)

  function ReadPlain(s: string, value: string): Field {
    if s == [] || s[0] == ',' || s[0] == '\n' then Field(value, s)
    else if s[0] == QUOTE then BadField
    else ReadPlain(s[1..], value + [s[0]])
  }

  /** After the opening quote. */
  function ReadQuoted(s: string, value: string): Field {
    if s == [] then BadField
    else if s[0] != QUOTE then ReadQuoted(s[1..], value + [s[0]])
    else if |s| > 1 && s[1] == QUOTE then ReadQuoted(s[2..], value + [QUOTE])
    else Field(value, s[1..])
  }

  function ReadField(s: string): (f: Field)
    ensures f.Field? ==> |f.rest| <= |s|
  {
    RestShrinks(s);
    if s != [] && s[0] == QUOTE then ReadQuoted(s[1..], []) else ReadPlain(s, [])
  }

  lemma {:induction false} PlainCost(s: string, value: string)
    ensures var f := ReadPlain(s, value);
            f.Field? ==> |value| <= |f.value| && |s| - |f.rest| == |f.value| - |value| && value <= f.value &&
                         forall i :: |value| <= i < |f.value| ==> !Reserved(f.value[i])
    decreases |s|
  {
    if s != [] && !Reserved(s[0]) { PlainCost(s[1..], value + [s[0]]); }
  }

  /** The number of quotes in a string. */
  function Quotes(s: string): nat {
    if s == [] then 0 else Quotes(s[..|s| - 1]) + if s[|s| - 1] == QUOTE then 1 else 0
  }

  lemma {:induction false} QuotedCost(s: string, value: string)
    ensures var f := ReadQuoted(s, value);
            f.Field? ==> |s| - |f.rest| == |f.value| - |value| + Quotes(f.value) - Quotes(value) + 1
    decreases |s|
  {
    if s != [] {
      assert (value + [s[0]])[..|value|] == value;
      if s[0] != QUOTE {
        QuotedCost(s[1..], value + [s[0]]);
      } else if |s| > 1 && s[1] == QUOTE {
        QuotedCost(s[2..], value + [QUOTE]);
      }
    }
  }

  lemma {:induction false} QuotedShrinks(s: string, value: string)
    ensures var f := ReadQuoted(s, value); f.Field? ==> |f.rest| <= |s|
    decreases |s|
  {
    if s != [] {
      if s[0] != QUOTE {
        QuotedShrinks(s[1..], value + [s[0]]);
      } else if |s| > 1 && s[1] == QUOTE {
        QuotedShrinks(s[2..], value + [QUOTE]);
      }
    }
  }

  lemma RestShrinks(s: string)
    ensures ReadPlain(s, []).Field? ==> |ReadPlain(s, []).rest| <= |s|
    ensures s != [] && ReadQuoted(s[1..], []).Field? ==> |ReadQuoted(s[1..], []).rest| <= |s|
  {
    PlainCost(s, []);
    if s != [] { QuotedShrinks(s[1..], []); }
  }

  function ReadRow(s: string): (r: Row)
    ensures r.Row? ==> |r.rest| <= |s| && (s != [] ==> |r.rest| < |s|)
    decreases |s|
  {
    match ReadField(s)
    case BadField => BadRow
    case Field(value, rest) =>
      if rest == [] then Row([value], [])
      else if rest[0] == '\n' then Row([value], rest[1..])
      else if rest[0] != ',' then BadRow
      else match ReadRow(rest[1..])
           case BadRow => BadRow
           case Row(fields, end) => Row([value] + fields, end)
  }

  // ---------------------------------------------------------------- round trip

  function Texts(cells: seq<Cell>): seq<string> {
    seq(|cells|, i requires 0 <= i < |cells| => cells[i].text)
  }

  /** No cell is streamed raw with a reserved character in it. */
  predicate Plain(cells: seq<Cell>) {
    forall i :: 0 <= i < |cells| && cells[i].Raw? ==> !NeedsQuotes(cells[i].text)
  }

  lemma {:induction false} DoubledCons(c: char, w: string)
    ensures Doubled([c] + w) == (if c == QUOTE then [QUOTE, QUOTE] else [c]) + Doubled(w)
    decreases |w|
  {
    if w == [] {
      assert [c] + w == [c] && [c][..0] == [];
    } else {
      assert ([c] + w)[..|w|] == [c] + w[..|w| - 1];
      DoubledCons(c, w[..|w| - 1]);
    }
  }

  lemma {:induction false} DoubledPlain(v: string)
    requires !NeedsQuotes(v)
    ensures Doubled(v) == v
    decreases |v|
  {
    if v != [] {
      assert forall i :: 0 <= i < |v| ==> !Reserved(v[i]);
      DoubledPlain(v[..|v| - 1]);
      assert v == v[..|v| - 1] + [v[|v| - 1]];
    }
  }

  predicate AtBoundary(tail: string) { tail == [] || tail[0] == ',' || tail[0] == '\n' }

  lemma {:induction false} QuotedReadsBack(v: string, value: string, tail: string)
    requires AtBoundary(tail)
    ensures ReadQuoted(Doubled(v) + [QUOTE] + tail, value) == Field(value + v, tail)
    decreases |v|
  {
    var s := Doubled(v) + [QUOTE] + tail;
    if v == [] {
      assert s == [QUOTE] + tail && s[1..] == tail && value + v == value;
    } else {
      var w := v[1..];
      assert v == [v[0]] + w;
      DoubledCons(v[0], w);
      var step := if v[0] == QUOTE then 2 else 1;
      assert s[step..] == Doubled(w) + [QUOTE] + tail;
      QuotedReadsBack(w, value + [v[0]], tail);
      assert value + [v[0]] + w == value + v;
    }
  }

  lemma {:induction false} PlainReadsBack(v: string, value: string, tail: string)
    requires AtBoundary(tail) && !NeedsQuotes(v)
    ensures ReadPlain(v + tail, value) == Field(value + v, tail)
    decreases |v|
  {
    if v == [] {
      assert v + tail == tail && value + v == value;
    } else {
      assert !Reserved(v[0]);
      assert (v + tail)[1..] == v[1..] + tail;
      PlainReadsBack(v[1..], value + [v[0]], tail);
      assert value + [v[0]] + v[1..] == value + v;
    }
  }

  lemma CellReadsBack(cell: Cell, tail: string)
    requires AtBoundary(tail) && (cell.Raw? ==> !NeedsQuotes(cell.text))
    ensures ReadField(Print(cell) + tail) == Field(cell.text, tail)
  {
    hide ReadPlain; hide ReadQuoted; hide Doubled; hide NeedsQuotes;
    var v := cell.text;
    var s := Print(cell) + tail;
    if NeedsQuotes(v) {
      assert s[0] == QUOTE && s[1..] == Doubled(v) + [QUOTE] + tail;
      QuotedReadsBack(v, [], tail);
      assert [] + v == v;
    } else {
      DoubledPlain(v);
      PlainReadsBack(v, [], tail);
      assert [] + v == v;
      PlainStart(v, tail);
    }
  }

  lemma PlainStart(v: string, tail: string)
    requires AtBoundary(tail) && !NeedsQuotes(v)
    ensures v + tail == [] || (v + tail)[0] != QUOTE
  {
    if v != [] { assert !Reserved(v[0]); }
  }

  lemma {:induction false} JoinedCons(cells: seq<Cell>)
    requires |cells| >= 2
    ensures Joined(cells) == Print(cells[0]) + [','] + Joined(cells[1..])
    decreases |cells|
  {
    hide Print;
    var front, last := cells[..|cells| - 1], Print(cells[|cells| - 1]);
    assert cells[1..][..|cells| - 2] == front[1..];
    if |cells| == 2 {
      assert front == [cells[0]] && Joined(front) == Print(cells[0]) by { assert front[..0] == []; }
      assert cells[1..] == [cells[1]] && Joined(cells[1..]) == Print(cells[1]) by { assert cells[1..][..0] == []; }
    } else {
      JoinedCons(front);
      assert Joined(cells) == Print(cells[0]) + [','] + Joined(front[1..]) + [','] + last;
      assert Joined(cells[1..]) == Joined(front[1..]) + [','] + last;
    }
  }

  /** A record of plain cells, whatever follows it, is read back as exactly its fields. */
  lemma {:induction false} RowReadsBack(cells: seq<Cell>, tail: string)
    requires cells != [] && Plain(cells)
    ensures ReadRow(Record(cells) + tail) == Row(Texts(cells), tail)
    decreases |cells|
  {
    hide Print; hide ReadField; hide NeedsQuotes; hide Joined;
    if |cells| == 1 {
      JoinedOne(cells);
      LastCell(cells[0], tail);
      assert Texts(cells) == [cells[0].text];
    } else {
      JoinedCons(cells);
      var rest := Record(cells[1..]) + tail;
      assert Record(cells) + tail == Print(cells[0]) + ([','] + rest);
      RowReadsBack(cells[1..], tail);
      NextCell(cells[0], rest, Texts(cells[1..]), tail);
      assert Texts(cells) == [cells[0].text] + Texts(cells[1..]);
    }
  }

  lemma JoinedOne(cells: seq<Cell>)
    requires |cells| == 1
    ensures Joined(cells) == Print(cells[0])
  {
    assert cells[..0] == [];
  }

  lemma LastCell(cell: Cell, tail: string)
    requires cell.Raw? ==> !NeedsQuotes(cell.text)
    ensures ReadRow(Print(cell) + ['\n'] + tail) == Row([cell.text], tail)
  {
    hide Print; hide ReadField; hide NeedsQuotes;
    assert Print(cell) + ['\n'] + tail == Print(cell) + (['\n'] + tail);
    CellReadsBack(cell, ['\n'] + tail);
    assert (['\n'] + tail)[1..] == tail;
  }

  lemma NextCell(cell: Cell, rest: string, fields: seq<string>, tail: string)
    requires (cell.Raw? ==> !NeedsQuotes(cell.text)) && ReadRow(rest) == Row(fields, tail)
    ensures ReadRow(Print(cell) + ([','] + rest)) == Row([cell.text] + fields, tail)
  {
    hide Print; hide ReadField; hide NeedsQuotes;
    CellReadsBack(cell, [','] + rest);
    assert ([','] + rest)[1..] == rest;
  }

  // ---------------------------------------------------------------- only plain cells

  /** The least number of characters that can be read as this field, and as these fields. */
  function FieldCost(v: string): nat { |v| + if NeedsQuotes(v) then 2 + Quotes(v) else 0 }

  function Cost(fields: seq<string>): nat {
    if fields == [] then 0 else FieldCost(fields[0]) + 1 + Cost(fields[1..])
  }

  lemma FieldNeeds(s: string)
    ensures var f := ReadField(s); f.Field? ==> |s| - |f.rest| >= FieldCost(f.value)
  {
    if s != [] && s[0] == QUOTE {
      QuotedCost(s[1..], []);
    } else {
      PlainCost(s, []);
    }
  }

  lemma {:induction false} RowNeeds(s: string)
    ensures var r := ReadRow(s); r.Row? ==> |s| - |r.rest| + 1 >= Cost(r.fields)
    decreases |s|
  {
    FieldNeeds(s);
    var f := ReadField(s);
    if f.Field? {
      assert Cost([f.value]) == FieldCost(f.value) + 1;
      if f.rest != [] && f.rest[0] == ',' {
        RowNeeds(f.rest[1..]);
        var r := ReadRow(f.rest[1..]);
        if r.Row? { assert ([f.value] + r.fields)[1..] == r.fields; }
      }
    }
  }

  lemma {:induction false} DoubledLength(v: string)
    ensures |Doubled(v)| == |v| + Quotes(v)
    decreases |v|
  {
    if v != [] { DoubledLength(v[..|v| - 1]); }
  }

  lemma CellLength(cell: Cell)
    ensures |Print(cell)| == if cell.Raw? then |cell.text| else FieldCost(cell.text)
  {
    DoubledLength(cell.text);
    if !NeedsQuotes(cell.text) { DoubledPlain(cell.text); }
  }

  /** A record is as long as its fields cost, less what raw cells save on quoting. */
  lemma {:induction false} RecordLength(cells: seq<Cell>)
    requires cells != []
    ensures |Record(cells)| <= Cost(Texts(cells))
    ensures !Plain(cells) ==> |Record(cells)| + 2 <= Cost(Texts(cells))
    decreases |cells|
  {
    CellLength(cells[0]);
    if |cells| == 1 {
      JoinedOne(cells);
      assert Texts(cells) == [cells[0].text] && Cost(Texts(cells)) == FieldCost(cells[0].text) + 1;
    } else {
      JoinedCons(cells);
      RecordLength(cells[1..]);
      assert Texts(cells)[1..] == Texts(cells[1..]);
      if Plain(cells[1..]) && !Plain(cells) {
        assert cells[0].Raw? && NeedsQuotes(cells[0].text) by { FirstNotPlain(cells); }
      }
    }
  }

  lemma FirstNotPlain(cells: seq<Cell>)
    requires cells != [] && Plain(cells[1..]) && !Plain(cells)
    ensures cells[0].Raw? && NeedsQuotes(cells[0].text)
  {
    var i :| 0 <= i < |cells| && cells[i].Raw? && NeedsQuotes(cells[i].text);
  }

  /** A record reads back as its cells exactly when no raw cell holds a reserved character. */
  lemma ReadsBackIffPlain(cells: seq<Cell>, tail: string)
    requires cells != []
    ensures ReadRow(Record(cells) + tail) == Row(Texts(cells), tail) <==> Plain(cells)
  {
    if Plain(cells) {
      RowReadsBack(cells, tail);
    } else {
      RowNeeds(Record(cells) + tail);
      RecordLength(cells);
    }
  }

  /** Distinct rows of strings never print alike. */
  lemma PrintsApart(a: seq<string>, b: seq<string>)
    requires a != [] && b != [] && Record(Strings(a)) == Record(Strings(b))
    ensures a == b
  {
    RowReadsBack(Strings(a), []);
    RowReadsBack(Strings(b), []);
    assert Texts(Strings(a)) == a && Texts(Strings(b)) == b;
  }

  function Strings(fields: seq<string>): seq<Cell> {
    seq(|fields|, i requires 0 <= i < |fields| => Text(fields[i]))
  }

  /** A row without values prints like the row of one empty string, and reads as that. */
  lemma EmptyRowReadsAsOne()
    ensures Record([]) == Record([Text("")]) && ReadRow(Record([])) == Row([""], [])
  {
    RowReadsBack([Text("")], []);
    assert [Text("")][..0] == [] && Joined([Text("")]) == [];
    assert Texts([Text("")]) == [""];
    assert Record([]) + [] == Record([]);
  }

  // ---------------------------------------------------------------- files

  datatype File = BadFile | Rows(rows: seq<seq<string>>)

  function ReadFile(s: string): File
    decreases |s|
  {
    if s == [] then Rows([])
    else match ReadRow(s)
         case BadRow => BadFile
         case Row(fields, rest) =>
           match ReadFile(rest)
           case BadFile => BadFile
           case Rows(rows) => Rows([fields] + rows)
  }

  /** What the writer has put out after these rows. */
  function Written(rows: seq<seq<Cell>>): string {
    if rows == [] then [] else Record(rows[0]) + Written(rows[1..])
  }

  function AllTexts(rows: seq<seq<Cell>>): seq<seq<string>> {
    seq(|rows|, i requires 0 <= i < |rows| => Texts(rows[i]))
  }

  /** A file of non-empty plain rows reads back row by row. */
  lemma {:induction false} FileReadsBack(rows: seq<seq<Cell>>)
    requires forall i :: 0 <= i < |rows| ==> rows[i] != [] && Plain(rows[i])
    ensures ReadFile(Written(rows)) == Rows(AllTexts(rows))
    decreases |rows|
  {
    if rows != [] {
      RowReadsBack(rows[0], Written(rows[1..]));
      FileReadsBack(rows[1..]);
      assert AllTexts(rows) == [Texts(rows[0])] + AllTexts(rows[1..]);
    }
  }
}
