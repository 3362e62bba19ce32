/** The INSERT statement that BatchInsert builds, and what PostgreSQL reads in it. */
module BatchInsert {
  import opened Domain

  datatype Value = Text(text: string) | NullableText(maybe: Option<string>) | Flag(flag: bool) | Time(time: int)

  /** The column list of the statement. */
  const COLUMNS := ["hash", "link_id", "source_link_id", "ip_address", "user_agent", "referer", "browser", "os",
                    "country", "city", "is_bot", "clicked_at", "source_name"]

  const INSERT_INTO := "INSERT INTO "
  const OPEN := " ("
  const VALUES := " VALUES "

  /** The statement up to its rows. */
  function Header(table: string, columns: seq<string>): string {
    INSERT_INTO + (table + (OPEN + (Names(columns) + ")" + VALUES)))
  }

  /** Names separated by ", ". */
  function Names(names: seq<string>): string {
    if names == [] then "" else if |names| == 1 then names[0] else names[0] + ", " + Names(names[1..])
  }

  /** The value a click has for a column, by the column's name. */
  function FieldOf(e: ClickEvent, column: string): Option<Value> {
    if column == "source_name" then Some(Text(e.sourceName))
    else if column == "clicked_at" then Some(Time(e.clickedAt))
    else if column == "is_bot" then Some(Flag(e.isBot))
    else if column == "city" then Some(Text(e.city))
    else if column == "country" then Some(Text(e.country))
    else if column == "os" then Some(Text(e.os))
    else if column == "browser" then Some(Text(e.browser))
    else if column == "referer" then Some(Text(e.referer))
    else if column == "user_agent" then Some(Text(e.userAgent))
    else if column == "ip_address" then Some(Text(e.ipAddress))
    else if column == "source_link_id" then Some(NullableText(e.sourceLinkID))
    else if column == "link_id" then Some(Text(e.linkID))
    else if column == "hash" then Some(Text(e.hash))
    else None
  }

  // ------------------------------------------------------------------ writing the text

  /** %d for a natural number. */
  function Digits(n: nat): string {
    if n < 10 then [DigitChar(n)] else Digits(n / 10) + [DigitChar(n % 10)]
  }

  function DigitChar(d: nat): char
    requires d < 10
  {
    ['0', '1', '2', '3', '4', '5', '6', '7', '8', '9'][d]
  }

  /** "$a,$b,...": a parameter list without its parentheses. */
  function Params(ps: seq<nat>): string
    requires ps != []
  {
    "$" + Digits(ps[0]) + if |ps| == 1 then "" else "," + Params(ps[1..])
  }

  /** The Sprintf of one row: thirteen consecutive parameters. */
  function RowText(base: nat): string {
    "(" + Params(RowParams(base)) + ")"
  }

  function RowParams(base: nat): (ps: seq<nat>)
    ensures |ps| == 13 && forall j :: 0 <= j < 13 ==> ps[j] == base + j + 1
  {
    seq(13, j => base + j + 1)
  }

  /** strings.Join(parts, ","). */
  function Join(parts: seq<string>): string {
    if parts == [] then "" else if |parts| == 1 then parts[0] else parts[0] + "," + Join(parts[1..])
  }

  // ------------------------------------------------------------------ reading it back

  predicate IsDigit(c: char) {
    '0' <= c <= '9'
  }

  /** Reads digits as long as there are any. */
  function TakeNumber(s: string, acc: nat): (r: (nat, string))
    ensures |r.1| <= |s|
  {
    if s != "" && IsDigit(s[0]) then TakeNumber(s[1..], 10 * acc + (s[0] as int - '0' as int)) else (acc, s)
  }

  /** Reads parameters up to the closing parenthesis; the rest of the text is returned. */
  function ParseParams(s: string): (r: Option<(seq<nat>, string)>)
    ensures r.Some? ==> |r.value.1| < |s|
    decreases |s|
  {
    if |s| < 2 || s[0] != '$' || !IsDigit(s[1]) then None
    else
      var (n, rest) := TakeNumber(s[1..], 0);
      if rest == "" then None
      else if rest[0] == ')' then Some(([n], rest[1..]))
      else if rest[0] != ',' then None
      else match ParseParams(rest[1..])
        case None => None
        case Some((ps, tail)) => Some(([n] + ps, tail))
  }

  /** Reads the VALUES list: parenthesised rows of parameters, separated by commas. */
  function ParseRows(s: string): Option<seq<seq<nat>>>
    decreases |s|
  {
    if s == "" || s[0] != '(' then None
    else match ParseParams(s[1..])
      case None => None
      case Some((ps, rest)) =>
        if rest == "" then Some([ps])
        else if rest[0] != ',' then None
        else match ParseRows(rest[1..])
          case None => None
          case Some(rows) => Some([ps] + rows)
  }

  predicate IsNameChar(c: char) {
    'a' <= c <= 'z' || c == '_'
  }

  /** Reads a name as long as there is one. */
  function TakeName(s: string): (r: (string, string))
    ensures |r.1| <= |s|
  {
    if s != "" && IsNameChar(s[0]) then (var (name, rest) := TakeName(s[1..]); ([s[0]] + name, rest)) else ("", s)
  }

  /** Reads names up to the closing parenthesis; the rest of the text is returned. */
  function ParseNames(s: string): Option<(seq<string>, string)>
    decreases |s|
  {
    var (name, rest) := TakeName(s);
    if rest == "" then None
    else if rest[0] == ')' then Some(([name], rest[1..]))
    else if !(", " <= rest) then None
    else match ParseNames(rest[2..])
      case None => None
      case Some((names, tail)) => Some(([name] + names, tail))
  }

  datatype Statement = Statement(table: string, columns: seq<string>, rows: seq<seq<nat>>)

  /** Reads an INSERT statement. */
  function ParseStatement(s: string): Option<Statement> {
    if !(INSERT_INTO <= s) then None
    else
      var (table, rest) := TakeName(s[|INSERT_INTO|..]);
      if !(OPEN <= rest) then None
      else match ParseNames(rest[|OPEN|..])
        case None => None
        case Some((columns, tail)) =>
          if !(VALUES <= tail) then None
          else match ParseRows(tail[|VALUES|..])
            case None => None
            case Some(rows) => Some(Statement(table, columns, rows))
  }

  // -------------------------------------------------------------------- the round trip

  lemma DigitReadsBack(d: nat, tail: string, acc: nat)
    requires d < 10
    ensures IsDigit(DigitChar(d))
    ensures TakeNumber([DigitChar(d)] + tail, acc) == TakeNumber(tail, 10 * acc + d)
  {
    assert DigitChar(d) as int - '0' as int == d;
    assert ([DigitChar(d)] + tail)[1..] == tail;
  }

  lemma {:induction false} NumberReadsBack(n: nat, tail: string)
    ensures TakeNumber(Digits(n) + tail, 0) == TakeNumber(tail, n)
    ensures |Digits(n)| > 0 && IsDigit(Digits(n)[0])
  {
    hide TakeNumber, DigitChar;
    if n < 10 {
      DigitReadsBack(n, tail, 0);
    } else {
      var last := [DigitChar(n % 10)];
      NumberReadsBack(n / 10, last + tail);
      assert Digits(n) + tail == Digits(n / 10) + (last + tail);
      DigitReadsBack(n % 10, tail, n / 10);
      assert n == 10 * (n / 10) + n % 10;
    }
  }

  /** One parameter, up to what follows it. */
  lemma ParamReadsBack(n: nat, after: string)
    requires after != "" && !IsDigit(after[0])
    ensures var s := "$" + Digits(n) + after;
            |s| >= 2 && s[0] == '$' && IsDigit(s[1]) && TakeNumber(s[1..], 0) == (n, after)
  {
    var s := "$" + Digits(n) + after;
    assert s[1..] == Digits(n) + after;
    NumberReadsBack(n, after);
    assert s[1] == Digits(n)[0];
  }

  lemma {:induction false} ParamsReadBack(ps: seq<nat>, tail: string)
    requires ps != []
    ensures ParseParams(Params(ps) + ")" + tail) == Some((ps, tail))
    decreases |ps|
  {
    hide TakeNumber, Digits, IsDigit;
    var text := Params(ps) + ")" + tail;
    if |ps| == 1 {
      var after := ")" + tail;
      NotDigits();
      ParamReadsBack(ps[0], after);
      assert text == "$" + Digits(ps[0]) + after;
      assert after[1..] == tail;
      assert ps == [ps[0]];
    } else {
      var more := Params(ps[1..]) + ")" + tail;
      var after := "," + more;
      NotDigits();
      ParamReadsBack(ps[0], after);
      assert text == "$" + Digits(ps[0]) + after;
      assert after[1..] == more;
      ParamsReadBack(ps[1..], tail);
      assert ps == [ps[0]] + ps[1..];
    }
  }

  lemma NotDigits()
    ensures !IsDigit(')') && !IsDigit(',')
  {
  }

  function RowTexts(rows: seq<seq<nat>>): (texts: seq<string>)
    requires forall i :: 0 <= i < |rows| ==> rows[i] != []
    ensures |texts| == |rows| && forall i :: 0 <= i < |rows| ==> texts[i] == "(" + Params(rows[i]) + ")"
  {
    seq(|rows|, i requires 0 <= i < |rows| => "(" + Params(rows[i]) + ")")
  }

  /** Any non-empty list of non-empty parameter rows reads back as written. */
  lemma {:induction false} RowsReadBack(rows: seq<seq<nat>>)
    requires rows != [] && forall i :: 0 <= i < |rows| ==> rows[i] != []
    ensures ParseRows(Join(RowTexts(rows))) == Some(rows)
    decreases |rows|
  {
    var texts := RowTexts(rows);
    if |rows| == 1 {
      assert Join(texts) == "(" + (Params(rows[0]) + ")" + "");
      assert Join(texts)[1..] == Params(rows[0]) + ")" + "";
      ParamsReadBack(rows[0], "");
      assert rows == [rows[0]];
    } else {
      var more := Join(texts[1..]);
      assert Join(texts) == "(" + (Params(rows[0]) + ")" + ("," + more));
      assert Join(texts)[1..] == Params(rows[0]) + ")" + ("," + more);
      ParamsReadBack(rows[0], "," + more);
      assert texts[1..] == RowTexts(rows[1..]);
      assert ("," + more)[1..] == more;
      RowsReadBack(rows[1..]);
      assert rows == [rows[0]] + rows[1..];
    }
  }

  predicate IsName(name: string) {
    forall i :: 0 <= i < |name| ==> IsNameChar(name[i])
  }

  lemma {:induction false} NameReadsBack(name: string, tail: string)
    requires IsName(name) && (tail == "" || !IsNameChar(tail[0]))
    ensures TakeName(name + tail) == (name, tail)
  {
    if name == "" {
      assert name + tail == tail;
    } else {
      NameReadsBack(name[1..], tail);
      assert (name + tail)[1..] == name[1..] + tail;
      assert name == [name[0]] + name[1..];
    }
  }

  lemma {:induction false} NamesReadBack(names: seq<string>, tail: string)
    requires names != [] && forall i :: 0 <= i < |names| ==> IsName(names[i])
    ensures ParseNames(Names(names) + ")" + tail) == Some((names, tail))
    decreases |names|
  {
    hide TakeName, IsName;
    var text := Names(names) + ")" + tail;
    if |names| == 1 {
      var after := ")" + tail;
      NameReadsBack(names[0], after);
      assert text == names[0] + after && after[1..] == tail;
      assert names == [names[0]];
    } else {
      var more := Names(names[1..]) + ")" + tail;
      var after := ", " + more;
      NameReadsBack(names[0], after);
      assert text == names[0] + after && after[2..] == more && ", " <= after;
      NamesReadBack(names[1..], tail);
      assert names == [names[0]] + names[1..];
    }
  }

  lemma ColumnsAreNames()
    ensures IsName("click_events") && forall i :: 0 <= i < |COLUMNS| ==> IsName(COLUMNS[i])
  {
  }

  lemma Dropped(a: string, b: string)
    ensures a <= a + b && (a + b)[|a|..] == b
  {
  }

  lemma StatementParses(body: string, table: string, list: string, columns: seq<string>, text: string,
                        rows: seq<seq<nat>>)
    requires TakeName(body) == (table, OPEN + list) && ParseNames(list) == Some((columns, VALUES + text))
             && ParseRows(text) == Some(rows)
    ensures ParseStatement(INSERT_INTO + body) == Some(Statement(table, columns, rows))
  {
    hide TakeName, ParseNames, ParseRows;
    Dropped(INSERT_INTO, body);
    Dropped(OPEN, list);
    Dropped(VALUES, text);
  }

  /** A statement reads back as an insert of its rows into its table, under its columns. */
  lemma StatementReadsBack(table: string, columns: seq<string>, rows: seq<seq<nat>>)
    requires IsName(table) && columns != [] && forall i :: 0 <= i < |columns| ==> IsName(columns[i])
    requires rows != [] && forall i :: 0 <= i < |rows| ==> rows[i] != []
    ensures ParseStatement(Header(table, columns) + Join(RowTexts(rows))) == Some(Statement(table, columns, rows))
  {
    hide TakeName, ParseNames, ParseRows, Names, Join, IsName, ParseStatement;
    var text := Join(RowTexts(rows));
    RowsReadBack(rows);
    var list := Names(columns) + ")" + (VALUES + text);
    assert !IsNameChar((OPEN + list)[0]);
    NameReadsBack(table, OPEN + list);
    NamesReadBack(columns, VALUES + text);
    StatementParses(table + (OPEN + list), table, list, columns, text, rows);
    assert Header(table, columns) + text == INSERT_INTO + (table + (OPEN + list));
  }

  // --------------------------------------------------------------------------- the code

  /** Parameter $k of the statement denotes args[k-1]: in row i, the parameter in the place of a column selects
      the value of events[i] for the column of that name. */
  predicate Denotes(columns: seq<string>, rows: seq<seq<nat>>, args: seq<Value>, events: seq<ClickEvent>) {
    && |rows| == |events|
    && forall i :: 0 <= i < |rows| ==> SelectsRow(columns, rows[i], args, events[i], i)
  }

  predicate SelectsRow(columns: seq<string>, row: seq<nat>, args: seq<Value>, e: ClickEvent, i: nat) {
    && |row| == |columns| == 13
    && forall j :: 0 <= j < |row| ==>
         && row[j] == 13 * i + j + 1
         && row[j] <= |args|
         && FieldOf(e, columns[j]) == Some(args[row[j] - 1])
  }

  function ArgsOf(e: ClickEvent): seq<Value> {
    [Text(e.hash), Text(e.linkID), NullableText(e.sourceLinkID), Text(e.ipAddress), Text(e.userAgent),
     Text(e.referer), Text(e.browser), Text(e.os), Text(e.country), Text(e.city), Flag(e.isBot), Time(e.clickedAt),
         Text(e.sourceName)]
  }

  lemma ArgsFollowColumns(e: ClickEvent)
    ensures |ArgsOf(e)| == |COLUMNS| == 13
    ensures forall j :: 0 <= j < 13 ==> FieldOf(e, COLUMNS[j]) == Some(ArgsOf(e)[j])
  {
  }

  /** None when there is nothing to send. */
  method BatchInsert(events: seq<ClickEvent>) returns (sent: Option<(string, seq<Value>)>)
    ensures sent.None? <==> events == []
    ensures sent.Some? ==>
              && |sent.value.1| == 13 * |events|
              && var statement := ParseStatement(sent.value.0);
                 && statement.Some?
                 && statement.value.table == "click_events"
                 && Denotes(statement.value.columns, statement.value.rows, sent.value.1, events)
  {
    if |events| == 0 {
      return None;
    }
    var values: seq<string> := [];
    var args: seq<Value> := [];
    ghost var rows: seq<seq<nat>> := [];
    for i := 0 to |events|
      invariant |rows| == |values| == i && |args| == 13 * i
      invariant forall k :: 0 <= k < i ==> rows[k] != []
      invariant values == RowTexts(rows)
      invariant Denotes(COLUMNS, rows, args, events[..i])
    {
      var base := i * 13;
      values := values + [RowText(base)];
      args := args + ArgsOf(events[i]);
      ghost var before := rows;
      rows := rows + [RowParams(base)];
      ArgsFollowColumns(events[i]);
    }
    assert events[..|events|] == events;
    ColumnsAreNames();
    StatementReadsBack("click_events", COLUMNS, rows);
    return Some((Header("click_events", COLUMNS) + Join(values), args));
  }
}
