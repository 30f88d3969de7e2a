/**
 The CSV branch of `exportRbacReport` (react/src/utils.ts), and a reader that
 follows section 2 of RFC 4180.
 */
module CsvReport {
  import opened Wrappers

  const QUOTE := '\"'
  const COMMA := ','
  const CR := '\r'
  const LF := '\n'

  /** A cell that a spreadsheet would take for a formula. */
  predicate IsFormula(value: string) {
    value != "" && (value[0] == '=' || value[0] == '+' || value[0] == '-' || value[0] == '@')
  }

  function Guard(value: string): string {
    if IsFormula(value) then "'" + value else value
  }

  function DoubleQuotes(value: string): string {
    if value == "" then ""
    else (if value[0] == QUOTE then [QUOTE, QUOTE] else [value[0]]) + DoubleQuotes(value[1..])
  }

  function CsvCell(value: string): string {
    [QUOTE] + DoubleQuotes(Guard(value)) + [QUOTE]
  }

  function WriteRow(row: seq<string>): string
    requires row != []
  {
    if |row| == 1 then CsvCell(row[0]) else CsvCell(row[0]) + [COMMA] + WriteRow(row[1..])
  }

  predicate IsGrid(rows: seq<seq<string>>) {
    forall i :: 0 <= i < |rows| ==> rows[i] != []
  }

  function WriteRows(rows: seq<seq<string>>): string
    requires rows != [] && IsGrid(rows)
  {
    if |rows| == 1 then WriteRow(rows[0]) else WriteRow(rows[0]) + [CR, LF] + WriteRows(rows[1..])
  }

  const HEADER := ["kind", "address", "role", "granted", "event"]

  function RoleRow(address: string, role: string, granted: bool): seq<string> {
    ["role", address, role, if granted then "true" else "false", ""]
  }

  function AuditRow(event: string): seq<string> {
    ["audit", "", "", "", event]
  }

  datatype Unserializable = Unserializable

  // --- The reader ---

  /** The rest of a quoted field: two quotes stand for one, a single one ends the field. */
  function ReadQuoted(s: string): Option<(string, string)> {
    if s == "" then None
    else if s[0] != QUOTE then
      match ReadQuoted(s[1..])
      case None => None
      case Some((field, rest)) => Some(([s[0]] + field, rest))
    else if 1 < |s| && s[1] == QUOTE then
      match ReadQuoted(s[2..])
      case None => None
      case Some((field, rest)) => Some(([QUOTE] + field, rest))
    else Some(("", s[1..]))
  }

  /** An unquoted field runs up to a comma, a line break or the end, and holds no quote. */
  function ReadPlain(s: string): Option<(string, string)> {
    if s == "" || s[0] == COMMA || s[0] == CR || s[0] == LF then Some(("", s))
    else if s[0] == QUOTE then None
    else
      match ReadPlain(s[1..])
      case None => None
      case Some((field, rest)) => Some(([s[0]] + field, rest))
  }

  lemma QuotedConsumes(s: string)
    ensures ReadQuoted(s).Some? ==> |ReadQuoted(s).value.1| < |s|
  {
  }

  lemma PlainConsumes(s: string)
    ensures ReadPlain(s).Some? ==> |ReadPlain(s).value.1| <= |s|
  {
  }

  function ReadField(s: string): (r: Option<(string, string)>)
    ensures r.Some? ==> |r.value.1| <= |s|
  {
    if s != "" && s[0] == QUOTE then
      QuotedConsumes(s[1..]);
      ReadQuoted(s[1..])
    else
      PlainConsumes(s);
      ReadPlain(s)
  }

  /** Records are separated by CRLF; the last one may or may not end with it. */
  function ReadRows(s: string): (r: Option<seq<seq<string>>>)
    ensures r.Some? ==> r.value != [] && IsGrid(r.value)
    decreases |s|
  {
    match ReadField(s)
    case None => None
    case Some((field, rest)) =>
      if rest == "" then Some([[field]])
      else if rest[0] == COMMA then
        match ReadRows(rest[1..])
        case None => None
        case Some(rows) => Some([[field] + rows[0]] + rows[1..])
      else if [CR, LF] <= rest then
        if |rest| == 2 then Some([[field]])
        else
          match ReadRows(rest[2..])
          case None => None
          case Some(rows) => Some([[field]] + rows)
      else None
  }

  function GuardRow(row: seq<string>): (r: seq<string>)
    ensures |r| == |row| && forall i :: 0 <= i < |row| ==> r[i] == Guard(row[i])
  {
    if row == [] then [] else [Guard(row[0])] + GuardRow(row[1..])
  }

  function GuardRows(rows: seq<seq<string>>): (r: seq<seq<string>>)
    ensures |r| == |rows| && forall i :: 0 <= i < |rows| ==> r[i] == GuardRow(rows[i])
  {
    if rows == [] then [] else [GuardRow(rows[0])] + GuardRows(rows[1..])
  }

  lemma ReadQuotedChar(c: char, tail: string, field: string, rest: string)
    requires c != QUOTE && ReadQuoted(tail) == Some((field, rest))
    ensures ReadQuoted([c] + tail) == Some(([c] + field, rest))
  {
    assert ([c] + tail)[1..] == tail;
  }

  lemma ReadQuotedQuote(tail: string, field: string, rest: string)
    requires ReadQuoted(tail) == Some((field, rest))
    ensures ReadQuoted([QUOTE, QUOTE] + tail) == Some(([QUOTE] + field, rest))
  {
    assert ([QUOTE, QUOTE] + tail)[2..] == tail;
  }

  lemma ReadQuotedEnd(rest: string)
    requires rest == "" || rest[0] != QUOTE
    ensures ReadQuoted([QUOTE] + rest) == Some(("", rest))
  {
    assert ([QUOTE] + rest)[1..] == rest;
  }

  lemma DoublingStep(value: string, end: string)
    requires value != ""
    ensures DoubleQuotes(value) + end
            == (if value[0] == QUOTE then [QUOTE, QUOTE] else [value[0]]) + (DoubleQuotes(value[1..]) + end)
  {
  }

  lemma {:induction false} QuotedUndoesDoubling(value: string, rest: string)
    requires rest == "" || rest[0] != QUOTE
    ensures ReadQuoted(DoubleQuotes(value) + ([QUOTE] + rest)) == Some((value, rest))
  {
    var end := [QUOTE] + rest;
    if value == "" {
      ReadQuotedEnd(rest);
      assert "" + end == end;
    } else {
      QuotedUndoesDoubling(value[1..], rest);
      DoublingStep(value, end);
      if value[0] == QUOTE {
        ReadQuotedQuote(DoubleQuotes(value[1..]) + end, value[1..], rest);
      } else {
        ReadQuotedChar(value[0], DoubleQuotes(value[1..]) + end, value[1..], rest);
      }
      assert [value[0]] + value[1..] == value;
    }
  }

  lemma FieldUndoesCell(value: string, rest: string)
    requires rest == "" || rest[0] != QUOTE
    ensures ReadField(CsvCell(value) + rest) == Some((Guard(value), rest))
  {
    var s := CsvCell(value) + rest;
    QuotedUndoesDoubling(Guard(value), rest);
    assert s[1..] == DoubleQuotes(Guard(value)) + ([QUOTE] + rest);
  }

  lemma ReadLastField(s: string, field: string)
    requires ReadField(s) == Some((field, ""))
    ensures ReadRows(s) == Some([[field]])
  {
  }

  lemma ReadFieldAndMore(s: string, field: string, more: string, row: seq<string>, later: seq<seq<string>>)
    requires ReadField(s) == Some((field, [COMMA] + more)) && ReadRows(more) == Some([row] + later)
    ensures ReadRows(s) == Some([[field] + row] + later)
  {
    assert ([COMMA] + more)[1..] == more;
    assert ([row] + later)[1..] == later;
  }

  lemma ReadFieldAndLine(s: string, field: string, line: string, later: seq<seq<string>>)
    requires ReadField(s) == Some((field, [CR, LF] + line)) && line != "" && ReadRows(line) == Some(later)
    ensures ReadRows(s) == Some([[field]] + later)
  {
    assert ([CR, LF] + line)[2..] == line;
  }

  /** The end of the text with nothing after it, or a line break and a text that reads as `later`. */
  ghost predicate Continues(next: string, later: seq<seq<string>>) {
    if next == "" then later == []
    else [CR, LF] <= next && 2 < |next| && ReadRows(next[2..]) == Some(later)
  }

  /** Reading a written row, whatever line comes after it. */
  lemma {:induction false} RowsUndoRow(row: seq<string>, next: string, later: seq<seq<string>>)
    requires row != [] && Continues(next, later)
    ensures ReadRows(WriteRow(row) + next) == Some([GuardRow(row)] + later)
    decreases |row|
  {
    if |row| == 1 {
      OneCellUndone(row[0], next, later);
      assert GuardRow(row) == [Guard(row[0])];
    } else {
      RowsUndoRow(row[1..], next, later);
      WriteRowStep(row, next);
      OneMoreCellUndone(row[0], WriteRow(row[1..]) + next, GuardRow(row[1..]), later);
    }
  }

  lemma WriteRowStep(row: seq<string>, next: string)
    requires 1 < |row|
    ensures WriteRow(row) + next == CsvCell(row[0]) + ([COMMA] + (WriteRow(row[1..]) + next))
  {
    Reassociate(CsvCell(row[0]), [COMMA], WriteRow(row[1..]), next);
  }

  lemma Reassociate(a: string, b: string, c: string, d: string)
    ensures a + b + c + d == a + (b + (c + d))
  {
    assert a + b + c + d == a + (b + c + d);
  }

  lemma OneMoreCellUndone(cell: string, more: string, row: seq<string>, later: seq<seq<string>>)
    requires ReadRows(more) == Some([row] + later)
    ensures ReadRows(CsvCell(cell) + ([COMMA] + more)) == Some([[Guard(cell)] + row] + later)
  {
    FieldUndoesCell(cell, [COMMA] + more);
    ReadFieldAndMore(CsvCell(cell) + ([COMMA] + more), Guard(cell), more, row, later);
  }

  lemma OneCellUndone(cell: string, next: string, later: seq<seq<string>>)
    requires Continues(next, later)
    ensures ReadRows(CsvCell(cell) + next) == Some([[Guard(cell)]] + later)
  {
    FieldUndoesCell(cell, next);
    if next == "" {
      ReadLastField(CsvCell(cell) + next, Guard(cell));
      assert [[Guard(cell)]] + later == [[Guard(cell)]];
    } else {
      assert next == [CR, LF] + next[2..];
      ReadFieldAndLine(CsvCell(cell) + next, Guard(cell), next[2..], later);
    }
  }

  /** Reading undoes writing: the same grid comes back, formula-guarded, for any cells whatever. */
  lemma {:induction false} ReadUndoesWrite(rows: seq<seq<string>>)
    requires rows != [] && IsGrid(rows)
    ensures ReadRows(WriteRows(rows)) == Some(GuardRows(rows))
    decreases |rows|
  {
    if |rows| == 1 {
      RowsUndoRow(rows[0], "", []);
      assert WriteRow(rows[0]) + "" == WriteRow(rows[0]);
      assert GuardRows(rows) == [GuardRow(rows[0])];
    } else {
      ReadUndoesWrite(rows[1..]);
      var next := [CR, LF] + WriteRows(rows[1..]);
      WrittenIsNotEmpty(rows[1..]);
      assert next[2..] == WriteRows(rows[1..]);
      RowsUndoRow(rows[0], next, GuardRows(rows[1..]));
      assert WriteRow(rows[0]) + next == WriteRows(rows);
    }
  }

  lemma WrittenIsNotEmpty(rows: seq<seq<string>>)
    requires rows != [] && IsGrid(rows)
    ensures WriteRows(rows) != ""
  {
    assert WriteRow(rows[0]) != "";
  }

  /** The guard is the only loss: two cells are written alike exactly if they are equal or one is the other, guarded. */
  lemma GuardLosesOnlyApostrophe(a: string, b: string)
    ensures Guard(a) == Guard(b)
            <==> a == b || (IsFormula(b) && a == "'" + b) || (IsFormula(a) && b == "'" + a)
  {
    if Guard(a) == Guard(b) && IsFormula(a) && IsFormula(b) {
      assert ("'" + a)[1..] == a && ("'" + b)[1..] == b;
    }
    assert !IsFormula("'" + a) && !IsFormula("'" + b);
  }

  /** What is read back is never a formula, and differs only where the cell was one. */
  lemma GuardedIsNoFormula(value: string)
    ensures Guard(value) != "" ==> Guard(value)[0] !in ['=', '+', '-', '@']
    ensures value == "" || value[0] !in ['=', '+', '-', '@'] ==> Guard(value) == value
    ensures value != "" && value[0] in ['=', '+', '-', '@'] ==> Guard(value) == "'" + value
  {
  }

  // --- The report ---

  ghost predicate HasRoleRows(grid: seq<seq<string>>, address: string, roles: seq<(string, bool)>, n: nat) {
    && n <= |roles| && 1 + n <= |grid| && grid[0] == HEADER
    && forall i :: 0 <= i < n ==> grid[1 + i] == RoleRow(address, roles[i].0, roles[i].1)
  }

  ghost predicate HasAuditRows(grid: seq<seq<string>>, first: nat, history: seq<Option<string>>, n: nat) {
    && n <= |history| && first + n <= |grid|
    && forall i :: 0 <= i < n ==> history[i].Some? && grid[first + i] == AuditRow(history[i].value)
  }

  /** The header, a row for each role and a row for each audit entry, in this order. */
  ghost predicate IsReport(grid: seq<seq<string>>, address: string, roles: seq<(string, bool)>,
                           history: seq<Option<string>>)
  {
    && |grid| == 1 + |roles| + |history|
    && HasRoleRows(grid, address, roles, |roles|)
    && HasAuditRows(grid, 1 + |roles|, history, |history|)
  }

  /** The report as its reader sees it, column by column, each cell guarded. */
  ghost predicate ReadsAsReport(rows: seq<seq<string>>, address: string, roles: seq<(string, bool)>,
                                history: seq<Option<string>>)
  {
    && |rows| == 1 + |roles| + |history|
    && rows[0] == ["kind", "address", "role", "granted", "event"]
    && (forall i :: 0 <= i < |roles| ==>
          rows[1 + i] == ["role", Guard(address), Guard(roles[i].0), if roles[i].1 then "true" else "false", ""])
    && (forall i :: 0 <= i < |history| ==>
          history[i].Some? && rows[1 + |roles| + i] == ["audit", "", "", "", Guard(history[i].value)])
  }

  lemma GuardFive(a: string, b: string, c: string, d: string, e: string)
    ensures GuardRow([a, b, c, d, e]) == [Guard(a), Guard(b), Guard(c), Guard(d), Guard(e)]
  {
  }

  lemma RoleIsReadBack(address: string, role: string, granted: bool)
    ensures GuardRow(RoleRow(address, role, granted))
            == ["role", Guard(address), Guard(role), if granted then "true" else "false", ""]
  {
    GuardFive("role", address, role, if granted then "true" else "false", "");
  }

  lemma AuditIsReadBack(event: string)
    ensures GuardRow(AuditRow(event)) == ["audit", "", "", "", Guard(event)]
  {
    GuardFive("audit", "", "", "", event);
  }

  lemma HeaderIsReadBack()
    ensures GuardRow(HEADER) == ["kind", "address", "role", "granted", "event"]
  {
    GuardFive("kind", "address", "role", "granted", "event");
  }

  lemma ReportIsReadBack(grid: seq<seq<string>>, address: string, roles: seq<(string, bool)>,
                         history: seq<Option<string>>)
    requires IsReport(grid, address, roles, history)
    ensures ReadsAsReport(GuardRows(grid), address, roles, history)
  {
    HeaderIsReadBack();
    forall i | 0 <= i < |roles|
      ensures GuardRow(RoleRow(address, roles[i].0, roles[i].1))
              == ["role", Guard(address), Guard(roles[i].0), if roles[i].1 then "true" else "false", ""]
    {
      RoleIsReadBack(address, roles[i].0, roles[i].1);
    }
    forall i | 0 <= i < |history| && history[i].Some?
      ensures GuardRow(AuditRow(history[i].value)) == ["audit", "", "", "", Guard(history[i].value)]
    {
      AuditIsReadBack(history[i].value);
    }
  }

  lemma ReportHasFiveColumns(grid: seq<seq<string>>, address: string, roles: seq<(string, bool)>,
                             history: seq<Option<string>>, k: nat)
    requires IsReport(grid, address, roles, history) && k < |grid|
    ensures |grid[k]| == 5
  {
    if 1 <= k <= |roles| {
      assert grid[1 + (k - 1)] == RoleRow(address, roles[k - 1].0, roles[k - 1].1);
    } else if |roles| < k {
      var i := k - 1 - |roles|;
      assert grid[1 + |roles| + i] == AuditRow(history[i].value);
    }
  }

  /** An audit entry that serializes to nothing (None) makes the export throw. */
  method ReportRows(address: string, roles: seq<(string, bool)>, auditHistory: seq<Option<string>>)
    returns (r: Result<seq<seq<string>>, Unserializable>)
    ensures r.Failure? <==> None in auditHistory
    ensures r.Success? ==> IsReport(r.value, address, roles, auditHistory)
  {
    var grid := [HEADER];
    for i := 0 to |roles|
      invariant |grid| == 1 + i && HasRoleRows(grid, address, roles, i)
    {
      grid := grid + [RoleRow(address, roles[i].0, roles[i].1)];
    }
    for i := 0 to |auditHistory|
      invariant |grid| == 1 + |roles| + i && HasRoleRows(grid, address, roles, |roles|)
      invariant HasAuditRows(grid, 1 + |roles|, auditHistory, i)
    {
      if auditHistory[i].None? {
        assert None in auditHistory;
        return Failure(Unserializable);
      }
      grid := grid + [AuditRow(auditHistory[i].value)];
    }
    assert forall i :: 0 <= i < |auditHistory| ==> auditHistory[i].Some?;
    return Success(grid);
  }

  /** The reader gets the report back, each cell guarded. */
  method ExportCsv(address: string, roles: seq<(string, bool)>, auditHistory: seq<Option<string>>)
    returns (r: Result<string, Unserializable>)
    ensures r.Failure? <==> None in auditHistory
    ensures r.Success? ==>
              && ReadRows(r.value).Some?
              && ReadsAsReport(ReadRows(r.value).value, address, roles, auditHistory)
  {
    var rows := ReportRows(address, roles, auditHistory);
    if rows.Failure? {
      return Failure(Unserializable);
    }
    forall k | 0 <= k < |rows.value| ensures rows.value[k] != [] {
      ReportHasFiveColumns(rows.value, address, roles, auditHistory, k);
    }
    ReadUndoesWrite(rows.value);
    ReportIsReadBack(rows.value, address, roles, auditHistory);
    return Success(WriteRows(rows.value));
  }
}
