/**
 * How the account export writes CSV, and a reader of it: section 2 of RFC 4180, with a
 * line feed between rows.
 */
module CsvFormat {
  import opened Options

  /** The Unicode classes the numeric exemption asks for; every other character is Other. */
  datatype CharClass = Digit | Separator | Other

  // ----- Printing -----

  predicate StartsFormula(v: string) { |v| > 0 && v[0] in "=+-@\t\r" }

  function Unsigned(v: string): string { if |v| > 0 && (v[0] == '+' || v[0] == '-') then v[1..] else v }

  function WithoutPercent(v: string): string { if |v| > 0 && v[|v| - 1] == '%' then v[..|v| - 1] else v }

  /** Digits and separators, with at least one digit. */
  predicate IsAmount(classOf: char -> CharClass, v: string) {
    (exists i :: 0 <= i < |v| && classOf(v[i]) == Digit) && (forall i :: 0 <= i < |v| ==> classOf(v[i]) != Other)
  }

  /** Optional sign, then digits and separators with at least one digit, then an optional %. */
  predicate IsNumeric(classOf: char -> CharClass, v: string) { IsAmount(classOf, WithoutPercent(Unsigned(v))) }

  predicate NeedsGuard(classOf: char -> CharClass, v: string) { StartsFormula(v) && !IsNumeric(classOf, v) }

  function Guarded(classOf: char -> CharClass, v: string): string {
    if NeedsGuard(classOf, v) then "'" + v else v
  }

  predicate Special(c: char) { c == ',' || c == '"' || c == '\n' || c == '\r' }

  predicate IsPlain(v: string) { forall i :: 0 <= i < |v| ==> !Special(v[i]) }

  function Doubled(v: string): string {
    if v == "" then "" else (if v[0] == '"' then "\"\"" else [v[0]]) + Doubled(v[1..])
  }

  function Quoted(v: string): string { if IsPlain(v) then v else "\"" + Doubled(v) + "\"" }

  method EscapeCsv(classOf: char -> CharClass, value: string) returns (r: string)
    ensures r == Quoted(Guarded(classOf, value))
    ensures ReadField(r) == Some(Guarded(classOf, value))
    ensures var cell := Guarded(classOf, value);
            if ',' in cell || '"' in cell || '\n' in cell || '\r' in cell
            then |r| >= 2 && r[0] == '"' && r[|r| - 1] == '"'
            else r == cell
  {
    var safe := value;
    if StartsFormula(safe) && !IsNumeric(classOf, safe) {
      safe := "'" + safe;
    }
    FieldIsRead(safe, "", [], []);
    assert Quoted(safe) + "" == Quoted(safe);
    if ',' in safe || '"' in safe || '\n' in safe || '\r' in safe {
      assert !IsPlain(safe);
      return "\"" + Doubled(safe) + "\"";
    }
    return safe;
  }

  function Joined(parts: seq<string>, separator: char): string {
    if parts == [] then "" else if |parts| == 1 then parts[0]
    else parts[0] + [separator] + Joined(parts[1..], separator)
  }

  function QuotedAll(fields: seq<string>): (r: seq<string>)
  {
    seq(|fields|, i requires 0 <= i < |fields| => Quoted(fields[i]))
  }

  function Row(fields: seq<string>): string { Joined(QuotedAll(fields), ',') }

  function Rows(table: seq<seq<string>>): seq<string> {
    if table == [] then [] else [Row(table[0])] + Rows(table[1..])
  }

  function Text(table: seq<seq<string>>): string { Joined(Rows(table), '\n') }

  // ----- Reading -----

  datatype Mode = AtStart | InPlain | InQuotes | AfterQuote

  /** The table of the text that is left, `row` and `field` being read so far; None when it is malformed. */
  function Read(mode: Mode, text: string, field: string, row: seq<string>,
      table: seq<seq<string>>): Option<seq<seq<string>>>
    decreases |text|
  {
    if text == "" then
      if mode == InQuotes then None else Some(table + [row + [field]])
    else
      var c, rest := text[0], text[1..];
      if mode == InQuotes then
        Read(if c == '"' then AfterQuote else InQuotes, rest, if c == '"' then field else field + [c], row, table)
      else if c == ',' then Read(AtStart, rest, "", row + [field], table)
      else if c == '\n' then Read(AtStart, rest, "", [], table + [row + [field]])
      else if c == '"' then
        match mode
        case AtStart => Read(InQuotes, rest, field, row, table)
        case AfterQuote => Read(InQuotes, rest, field + ['"'], row, table)
        case _ => None
      else if c == '\r' || mode == AfterQuote then None
      else Read(InPlain, rest, field + [c], row, table)
  }

  function Parse(text: string): Option<seq<seq<string>>> { Read(AtStart, text, "", [], []) }

  function ReadField(text: string): Option<string> {
    match Parse(text)
    case Some(table) => if |table| == 1 && |table[0]| == 1 then Some(table[0][0]) else None
    case None => None
  }

  // ----- What is printed is read back -----

  /** What follows a field: nothing, the next field or the next row. */
  predicate EndsField(rest: string) { rest == "" || rest[0] == ',' || rest[0] == '\n' }

  function AfterField(rest: string, field: string, row: seq<string>, table: seq<seq<string>>): Option<seq<seq<string>>>
    requires EndsField(rest)
  {
    if rest == "" then Some(table + [row + [field]])
    else if rest[0] == ',' then Read(AtStart, rest[1..], "", row + [field], table)
    else Read(AtStart, rest[1..], "", [], table + [row + [field]])
  }

  lemma {:induction false} PlainIsRead(mode: Mode, v: string, rest: string, field: string, row: seq<string>,
      table: seq<seq<string>>)
    requires IsPlain(v) && EndsField(rest) && (mode == AtStart || mode == InPlain)
    ensures Read(mode, v + rest, field, row, table) == AfterField(rest, field + v, row, table)
    decreases |v|
  {
    if v == "" {
      assert v + rest == rest && field + v == field;
    } else {
      assert (v + rest)[0] == v[0] && (v + rest)[1..] == v[1..] + rest;
      assert !Special(v[0]);
      PlainIsRead(InPlain, v[1..], rest, field + [v[0]], row, table);
      assert field + [v[0]] + v[1..] == field + v;
    }
  }

  lemma {:induction false} QuotedIsRead(v: string, rest: string, field: string, row: seq<string>,
      table: seq<seq<string>>)
    requires EndsField(rest)
    ensures Read(InQuotes, Doubled(v) + "\"" + rest, field, row, table) == AfterField(rest, field + v, row, table)
    decreases |v|
  {
    var text := Doubled(v) + "\"" + rest;
    if v == "" {
      assert text[0] == '"' && text[1..] == rest && field + v == field;
    } else {
      var next := Doubled(v[1..]) + "\"" + rest;
      QuotedIsRead(v[1..], rest, field + [v[0]], row, table);
      assert field + [v[0]] + v[1..] == field + v;
      if v[0] == '"' {
        assert text == "\"\"" + next;
        assert text[1..][1..] == next && text[1..][0] == '"';
      } else {
        assert text == [v[0]] + next;
      }
    }
  }

  lemma QuoteSplits(v: string, rest: string)
    requires !IsPlain(v)
    ensures Quoted(v) + rest == "\"" + (Doubled(v) + "\"" + rest)
  {}

  lemma OpensQuote(text: string, row: seq<string>, table: seq<seq<string>>)
    ensures Read(AtStart, "\"" + text, "", row, table) == Read(InQuotes, text, "", row, table)
  {
    assert ("\"" + text)[1..] == text;
  }

  lemma FieldIsRead(v: string, rest: string, row: seq<string>, table: seq<seq<string>>)
    requires EndsField(rest)
    ensures Read(AtStart, Quoted(v) + rest, "", row, table) == AfterField(rest, v, row, table)
  {
    assert "" + v == v;
    if IsPlain(v) {
      PlainIsRead(AtStart, v, rest, "", row, table);
    } else {
      QuoteSplits(v, rest);
      OpensQuote(Doubled(v) + "\"" + rest, row, table);
      QuotedIsRead(v, rest, "", row, table);
    }
  }

  lemma RowSplits(fields: seq<string>, rest: string)
    requires |fields| > 1
    ensures Row(fields) + rest == Quoted(fields[0]) + ("," + (Row(fields[1..]) + rest))
  {
    assert QuotedAll(fields)[1..] == QuotedAll(fields[1..]);
  }

  lemma TextSplits(rows: seq<seq<string>>)
    requires |rows| > 1
    ensures Text(rows) == Row(rows[0]) + ("\n" + Text(rows[1..]))
  {
    assert Rows(rows)[1..] == Rows(rows[1..]);
  }

  lemma NextField(text: string, field: string, row: seq<string>, table: seq<seq<string>>)
    ensures AfterField("," + text, field, row, table) == Read(AtStart, text, "", row + [field], table)
  {
    assert ("," + text)[1..] == text;
  }

  /** What follows a row: nothing, or the next row. */
  predicate EndsRow(rest: string) { rest == "" || rest[0] == '\n' }

  function AfterRow(rest: string, row: seq<string>, table: seq<seq<string>>): Option<seq<seq<string>>>
    requires EndsRow(rest)
  {
    if rest == "" then Some(table + [row]) else Read(AtStart, rest[1..], "", [], table + [row])
  }

  lemma NextRow(text: string, row: seq<string>, table: seq<seq<string>>)
    ensures AfterRow("\n" + text, row, table) == Read(AtStart, text, "", [], table + [row])
  {
    assert ("\n" + text)[1..] == text;
  }

  lemma {:induction false} RowIsRead(fields: seq<string>, rest: string, row: seq<string>, table: seq<seq<string>>)
    requires fields != [] && EndsRow(rest)
    ensures Read(AtStart, Row(fields) + rest, "", row, table) == AfterRow(rest, row + fields, table)
    decreases |fields|
  {
    if |fields| == 1 {
      FieldIsRead(fields[0], rest, row, table);
      assert row + [fields[0]] == row + fields;
    } else {
      var more := Row(fields[1..]) + rest;
      RowSplits(fields, rest);
      FieldIsRead(fields[0], "," + more, row, table);
      NextField(more, fields[0], row, table);
      RowIsRead(fields[1..], rest, row + [fields[0]], table);
      assert row + [fields[0]] + fields[1..] == row + fields;
    }
  }

  ghost predicate IsTable(table: seq<seq<string>>) {
    table != [] && forall i :: 0 <= i < |table| ==> table[i] != []
  }

  lemma OneRow(rows: seq<seq<string>>)
    requires |rows| == 1
    ensures Text(rows) == Row(rows[0]) + ""
  {
    assert rows[1..] == [] && Rows(rows) == [Row(rows[0])];
  }

  lemma {:induction false} RowsAreRead(rows: seq<seq<string>>, table: seq<seq<string>>)
    requires IsTable(rows)
    ensures Read(AtStart, Text(rows), "", [], table) == Some(table + rows)
    decreases |rows|
  {
    var first := rows[0];
    assert [] + first == first;
    if |rows| == 1 {
      OneRow(rows);
      RowIsRead(first, "", [], table);
      assert table + [first] == table + rows;
    } else {
      TextSplits(rows);
      RowIsRead(first, "\n" + Text(rows[1..]), [], table);
      NextRow(Text(rows[1..]), first, table);
      RowsAreRead(rows[1..], table + [first]);
      assert table + [first] + rows[1..] == table + rows;
    }
  }

  /** Every table of at least one row, each of at least one field, is read back as it was. */
  lemma ParseUndoesText(table: seq<seq<string>>)
    requires IsTable(table)
    ensures Parse(Text(table)) == Some(table)
  {
    RowsAreRead(table, []);
    assert [] + table == table;
  }

  // ----- The guard -----

  /** A value that opens with =, +, -, @, a tab or a carriage return and is no number gets an apostrophe; no other. */
  lemma GuardExactly(classOf: char -> CharClass, v: string)
    ensures Guarded(classOf, v) ==
            if v != "" && !IsNumeric(classOf, v) &&
               (v[0] == '=' || v[0] == '+' || v[0] == '-' || v[0] == '@' || v[0] == '\t' || v[0] == '\r')
            then "'" + v else v
  {}

  /** A field never reaches a spreadsheet as a formula: it opens with none of the characters, or is a number. */
  lemma GuardedIsNoFormula(classOf: char -> CharClass, v: string)
    ensures var guarded := Guarded(classOf, v);
            && (IsNumeric(classOf, guarded) || guarded == "" ||
                (guarded[0] != '=' && guarded[0] != '+' && guarded[0] != '-' && guarded[0] != '@' &&
                 guarded[0] != '\t' && guarded[0] != '\r'))
            && Guarded(classOf, guarded) == guarded
  {
    if NeedsGuard(classOf, v) { assert Guarded(classOf, v)[0] == '\''; }
  }

  /** The classes of the ASCII characters: its digits, its white space, point, comma, apostrophe and dollar sign. */
  ghost predicate KnowsAscii(classOf: char -> CharClass) {
    forall c: char :: c as int < 128 ==>
                        classOf(c) == if '0' <= c <= '9' then Digit else if IsSeparator(c) then Separator else Other
  }

  /** The vertical tab and the form feed are white space too. */
  predicate IsSeparator(c: char) { c in " \t\n\r.,'$" || c as int == 11 || c as int == 12 }

  /** A sign or none, an amount, a percent sign or none. */
  ghost predicate SplitsAs(classOf: char -> CharClass, v: string, sign: string, amount: string, percent: string) {
    && v == sign + amount + percent
    && (sign == "" || sign == "+" || sign == "-") && (percent == "" || percent == "%")
    && (exists i :: 0 <= i < |amount| && classOf(amount[i]) == Digit)
    && forall i :: 0 <= i < |amount| ==> classOf(amount[i]) == Digit || classOf(amount[i]) == Separator
  }

  /** What is exempt: an optional sign, digits and separators with at least one digit, an optional percent sign. */
  lemma NumericExactly(classOf: char -> CharClass, v: string)
    requires KnowsAscii(classOf)
    ensures IsNumeric(classOf, v) <==> exists sign, amount, percent :: SplitsAs(classOf, v, sign, amount, percent)
  {
    if IsNumeric(classOf, v) {
      var unsigned := Unsigned(v);
      var amount := WithoutPercent(unsigned);
      var sign, percent := if unsigned == v then "" else v[..1], if amount == unsigned then "" else "%";
      assert v == sign + unsigned && unsigned == amount + percent;
      assert SplitsAs(classOf, v, sign, amount, percent);
    }
    if sign, amount, percent :| SplitsAs(classOf, v, sign, amount, percent) {
      SplitIsNumeric(classOf, v, sign, amount, percent);
    }
  }

  lemma SplitIsNumeric(classOf: char -> CharClass, v: string, sign: string, amount: string, percent: string)
    requires KnowsAscii(classOf) && SplitsAs(classOf, v, sign, amount, percent)
    ensures IsNumeric(classOf, v)
  {
    assert classOf('+') == Other && classOf('-') == Other && classOf('%') == Other;
    assert amount[0] != '+' && amount[0] != '-' && amount[|amount| - 1] != '%';
    assert v[0] == if sign == "" then amount[0] else sign[0];
    assert Unsigned(v) == amount + percent;
    assert (amount + percent)[|amount + percent| - 1] == if percent == "" then amount[|amount| - 1] else '%';
    assert WithoutPercent(amount + percent) == amount;
  }

  /**
   * So of the ASCII characters an exempt value holds digits, one at least unless one of another
   * script is there, separators, a sign in front and a percent sign behind: no letter, no
   * bracket, no operator within, and never = or @.
   */
  lemma ExemptHolds(classOf: char -> CharClass, v: string)
    requires KnowsAscii(classOf) && IsNumeric(classOf, v)
    ensures exists i :: 0 <= i < |v| && classOf(v[i]) == Digit
    ensures forall i :: 0 <= i < |v| && v[i] as int < 128 ==>
                          || '0' <= v[i] <= '9' || IsSeparator(v[i])
                          || (i == 0 && (v[i] == '+' || v[i] == '-')) || (i == |v| - 1 && v[i] == '%')
  {
    NumericExactly(classOf, v);
    var sign, amount, percent :| SplitsAs(classOf, v, sign, amount, percent);
    var k :| 0 <= k < |amount| && classOf(amount[k]) == Digit;
    assert v[|sign| + k] == amount[k];
    forall i | 0 <= i < |v| && v[i] as int < 128
      ensures || '0' <= v[i] <= '9' || IsSeparator(v[i])
              || (i == 0 && (v[i] == '+' || v[i] == '-')) || (i == |v| - 1 && v[i] == '%')
    {
      if |sign| <= i < |sign| + |amount| { assert v[i] == amount[i - |sign|]; }
    }
  }

  /** One character out of place is enough. */
  lemma OneIsEnough(classOf: char -> CharClass, v: string, i: nat)
    requires KnowsAscii(classOf) && i < |v| && v[i] as int < 128 && !('0' <= v[i] <= '9') && !IsSeparator(v[i])
    requires i == 0 ==> v[i] != '+' && v[i] != '-'
    requires i == |v| - 1 ==> v[i] != '%'
    ensures !IsNumeric(classOf, v)
  {
    if IsNumeric(classOf, v) { ExemptHolds(classOf, v); }
  }

  /** A formula is guarded. */
  lemma FormulaIsGuarded(classOf: char -> CharClass)
    requires KnowsAscii(classOf)
    ensures Guarded(classOf, "=1+1") == "'=1+1"
  {
    OneIsEnough(classOf, "=1+1", 0);
  }

  /** A negative amount is not. */
  lemma AmountIsExempt(classOf: char -> CharClass)
    requires KnowsAscii(classOf)
    ensures Guarded(classOf, "-7.9") == "-7.9"
  {
    var amount := "7.9";
    assert classOf(amount[0]) == Digit && classOf(amount[1]) == Separator && classOf(amount[2]) == Digit;
    assert IsAmount(classOf, amount);
    assert "-7.9"[1..] == amount && WithoutPercent(amount) == amount;
  }

  /** The guard loses a value only to the one spelt with the apostrophe already in front. */
  lemma GuardedCollides(classOf: char -> CharClass, a: string, b: string)
    ensures Guarded(classOf, a) == Guarded(classOf, b) <==>
            a == b || (NeedsGuard(classOf, a) && b == "'" + a) || (NeedsGuard(classOf, b) && a == "'" + b)
  {
    if NeedsGuard(classOf, a) { assert ("'" + a)[1..] == a; assert !StartsFormula("'" + a); }
    if NeedsGuard(classOf, b) { assert ("'" + b)[1..] == b; assert !StartsFormula("'" + b); }
  }
}
