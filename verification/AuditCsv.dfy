/** The CSV export of audit logs, against a parser for section 2 of RFC 4180 (records
    may end in LF as well as CRLF; the export writes LF). */
module AuditCsv {
  import opened Basics
  import opened Text

  // ---------- RFC 4180, section 2 ----------

  /** Where the parser is: before a field, in an unquoted or a quoted one, or after a
      quote that may close a quoted field or be half of an escaped quote. */
  datatype Mode = Before | Bare | Quoted | AfterQuote

  type Record = seq<string>

  function Prepend(r: Record, rest: Option<seq<Record>>): Option<seq<Record>> {
    match rest
    case None => None
    case Some(rs) => Some([r] + rs)
  }

  /** The rest of a field: a separator or a line end ends it, anything else is as the
      mode says. */
  function ParseFrom(s: string, field: string, record: Record, mode: Mode): Option<seq<Record>>
    decreases |s|
  {
    if s == "" then
      if mode == Quoted then None
      else if mode == Before && record == [] then Some([])
      else Some([record + [field]])
    else if mode == Quoted then
      if s[0] == '"' then ParseFrom(s[1..], field, record, AfterQuote)
      else ParseFrom(s[1..], field + [s[0]], record, Quoted)
    else if s[0] == ',' then ParseFrom(s[1..], "", record + [field], Before)
    else if s[0] == '\n' then Prepend(record + [field], ParseFrom(s[1..], "", [], Before))
    else if s[0] == '\r' then
      if |s| > 1 && s[1] == '\n' then Prepend(record + [field], ParseFrom(s[2..], "", [], Before)) else None
    else if s[0] == '"' then
      if mode == Before then ParseFrom(s[1..], "", record, Quoted)
      else if mode == AfterQuote then ParseFrom(s[1..], field + ['"'], record, Quoted)
      else None
    else if mode == AfterQuote then None
    else ParseFrom(s[1..], field + [s[0]], record, Bare)
  }

  function ParseCsv(s: string): Option<seq<Record>> {
    ParseFrom(s, "", [], Before)
  }

  // ---------- the export ----------

  datatype AuditLog = AuditLog(
    id: int, action: string, entityType: string, entityId: Option<int>, userId: Option<int>,
    details: Option<string>, ipAddress: Option<string>, timestamp: string)

  /** An unquoted or a quoted cell of a row. */
  datatype Cell = Plainly(text: string) | InQuotes(text: string)

  function Escape(s: string): string {
    if s == "" then "" else (if s[0] == '"' then "\"\"" else [s[0]]) + Escape(s[1..])
  }

  function Write(c: Cell): string {
    if c.Plainly? then c.text else "\"" + Escape(c.text) + "\""
  }

  function WriteRow(cells: seq<Cell>): string {
    if cells == [] then "\n"
    else if |cells| == 1 then Write(cells[0]) + "\n"
    else Write(cells[0]) + "," + WriteRow(cells[1..])
  }

  function Texts(cells: seq<Cell>): Record {
    seq(|cells|, i requires 0 <= i < |cells| => cells[i].text)
  }

  /** Newlines become spaces. */
  function OneLine(s: string): string {
    if s == "" then "" else [if s[0] == '\n' then ' ' else s[0]] + OneLine(s[1..])
  }

  function Number(n: Option<int>): string {
    if n.Some? then DecInt(n.value) else ""
  }

  function Username(log: AuditLog, users: map<int, string>): string {
    if log.userId.Some? && log.userId.value in users then users[log.userId.value] else ""
  }

  /** The nine cells of one log entry. */
  function Cells(log: AuditLog, users: map<int, string>): seq<Cell> {
    [Plainly(DecInt(log.id)), Plainly(log.action), Plainly(log.entityType),
     Plainly(Number(log.entityId)), Plainly(Number(log.userId)), Plainly(Username(log, users)),
     if log.details.Some? then InQuotes(OneLine(log.details.value)) else Plainly(""),
     Plainly(if log.ipAddress.Some? then log.ipAddress.value else ""), Plainly(log.timestamp)]
  }

  function HeaderCells(): seq<Cell> {
    [Plainly("ID"), Plainly("Action"), Plainly("Entity Type"), Plainly("Entity ID"), Plainly("User ID"),
     Plainly("Username"), Plainly("Details"), Plainly("IP Address"), Plainly("Timestamp")]
  }

  function Header(): string {
    WriteRow(HeaderCells())
  }

  function Rows(logs: seq<AuditLog>, users: map<int, string>): string {
    if logs == [] then "" else WriteRow(Cells(logs[0], users)) + Rows(logs[1..], users)
  }

  /** What a reader should find: the header and every entry's nine values. */
  function Values(logs: seq<AuditLog>, users: map<int, string>): seq<Record> {
    if logs == [] then [] else [Texts(Cells(logs[0], users))] + Values(logs[1..], users)
  }

  // ---------- cells survive ----------

  predicate Special(c: char) {
    c == ',' || c == '"' || c == '\n' || c == '\r'
  }

  predicate Plain(s: string) {
    forall i :: 0 <= i < |s| ==> !Special(s[i])
  }

  lemma {:induction false} BareText(t: string, rest: string, field: string, record: Record, mode: Mode)
    requires Plain(t) && mode in {Before, Bare} && t != ""
    ensures ParseFrom(t + rest, field, record, mode) == ParseFrom(rest, field + t, record, Bare)
    decreases |t|
  {
    var s := t + rest;
    assert s[1..] == t[1..] + rest;
    if |t| == 1 {
      assert s[1..] == rest;
      assert field + [s[0]] == field + t;
    } else {
      BareText(t[1..], rest, field + [t[0]], record, Bare);
      assert (field + [t[0]]) + t[1..] == field + t;
    }
  }

  lemma {:induction false} QuotedText(t: string, rest: string, field: string, record: Record)
    ensures ParseFrom(Escape(t) + "\"" + rest, field, record, Quoted) == ParseFrom(rest, field + t, record, AfterQuote)
    decreases |t|
  {
    var s := Escape(t) + "\"" + rest;
    if t == "" {
      assert s[1..] == rest && field + t == field;
    } else {
      var tail := Escape(t[1..]) + "\"" + rest;
      QuotedText(t[1..], rest, field + [t[0]], record);
      assert (field + [t[0]]) + t[1..] == field + t;
      if t[0] == '"' {
        assert s == "\"\"" + tail;
        assert s[1..] == "\"" + tail;
        assert s[1..][1..] == tail;
      } else {
        assert s == [t[0]] + tail;
        assert s[1..] == tail;
      }
    }
  }

  ghost predicate Readable(c: Cell) {
    c.Plainly? ==> Plain(c.text)
  }

  /** A cell up to the separator or line end behind it. */
  lemma CellParses(c: Cell, end: char, rest: string, record: Record)
    requires Readable(c) && (end == ',' || end == '\n')
    ensures ParseFrom(Write(c) + [end] + rest, "", record, Before) ==
      if end == ',' then ParseFrom(rest, "", record + [c.text], Before)
      else Prepend(record + [c.text], ParseFrom(rest, "", [], Before))
  {
    var tail := [end] + rest;
    assert tail[1..] == rest;
    assert "" + c.text == c.text;
    if c.Plainly? {
      assert Write(c) + [end] + rest == c.text + tail;
      if c.text == "" {
        assert c.text + tail == tail;
      } else {
        BareText(c.text, tail, "", record, Before);
      }
    } else {
      var s := Write(c) + [end] + rest;
      assert s == "\"" + (Escape(c.text) + "\"" + tail);
      assert s[1..] == Escape(c.text) + "\"" + tail;
      QuotedText(c.text, tail, "", record);
    }
  }

  lemma Regroup(a: string, b: string, rest: string)
    ensures a + "," + b + rest == a + [','] + (b + rest)
  {
  }

  lemma RowSplit(cells: seq<Cell>, rest: string)
    requires cells != []
    ensures WriteRow(cells) + rest ==
      if |cells| == 1 then Write(cells[0]) + ['\n'] + rest
      else Write(cells[0]) + [','] + (WriteRow(cells[1..]) + rest)
  {
    if |cells| > 1 {
      Regroup(Write(cells[0]), WriteRow(cells[1..]), rest);
    }
  }

  lemma TextsSplit(cells: seq<Cell>, record: Record)
    requires cells != []
    ensures record + Texts(cells) == (record + [cells[0].text]) + Texts(cells[1..])
    ensures (record + Texts(cells))[|record|] == cells[0].text
  {
  }

  lemma {:induction false} RowParses(cells: seq<Cell>, rest: string, record: Record)
    requires cells != [] && forall i :: 0 <= i < |cells| ==> Readable(cells[i])
    ensures ParseFrom(WriteRow(cells) + rest, "", record, Before) ==
      Prepend(record + Texts(cells), ParseFrom(rest, "", [], Before))
    decreases |cells|
  {
    RowSplit(cells, rest);
    TextsSplit(cells, record);
    if |cells| == 1 {
      CellParses(cells[0], '\n', rest, record);
      assert Texts(cells) == [cells[0].text];
    } else {
      CellParses(cells[0], ',', WriteRow(cells[1..]) + rest, record);
      RowParses(cells[1..], rest, record + [cells[0].text]);
    }
  }

  // ---------- which unquoted cells survive ----------

  /** Fields already read stay at the head of the record. */
  lemma {:induction false} RecordKept(s: string, field: string, record: Record, mode: Mode)
    requires record != [] && ParseFrom(s, field, record, mode).Some?
    ensures var rs := ParseFrom(s, field, record, mode).value;
      |rs| > 0 && |rs[0]| > |record| && rs[0][..|record|] == record
    decreases |s|
  {
    if s != "" {
      if mode == Quoted {
        if s[0] == '"' {
          RecordKept(s[1..], field, record, AfterQuote);
        } else {
          RecordKept(s[1..], field + [s[0]], record, Quoted);
        }
      } else if s[0] == ',' {
        RecordKept(s[1..], "", record + [field], Before);
        assert (record + [field])[..|record|] == record;
        var rs := ParseFrom(s, field, record, mode).value;
        assert rs[0][..|record|] == rs[0][..|record| + 1][..|record|];
      } else if s[0] == '"' && mode == Before {
        RecordKept(s[1..], "", record, Quoted);
      } else if s[0] == '"' && mode == AfterQuote {
        RecordKept(s[1..], field + ['"'], record, Quoted);
      } else if !Special(s[0]) && mode != AfterQuote {
        RecordKept(s[1..], field + [s[0]], record, Bare);
      }
    }
  }

  /** The field being read is the next one of the record. */
  ghost predicate FieldAt(r: Option<seq<Record>>, n: nat) {
    r.Some? && r.value != [] && n < |r.value[0]|
  }

  lemma FieldEnds(s: string, field: string, record: Record, mode: Mode)
    requires s != "" && (s[0] == ',' || s[0] == '\n' || s[0] == '\r') && mode != Quoted
    requires ParseFrom(s, field, record, mode).Some?
    ensures FieldAt(ParseFrom(s, field, record, mode), |record|)
    ensures ParseFrom(s, field, record, mode).value[0][|record|] == field
  {
    if s[0] == ',' {
      RecordKept(s[1..], "", record + [field], Before);
      var rs := ParseFrom(s, field, record, mode).value;
      assert rs[0][..|record| + 1][|record|] == field;
    }
  }

  /** Where no quote opens it, the first special character cuts a field short. */
  lemma {:induction false} BareCut(t: string, w: string, field: string, record: Record, mode: Mode)
    requires !Plain(t) && (mode == Bare || (mode == Before && t[0] != '"'))
    requires ParseFrom(t + w, field, record, mode).Some?
    ensures var r := ParseFrom(t + w, field, record, mode);
      FieldAt(r, |record|) && |r.value[0][|record|]| < |field| + |t|
    decreases |t|
  {
    var s := t + w;
    assert s[0] == t[0] && s[1..] == t[1..] + w;
    if !Special(t[0]) {
      BareCut(t[1..], w, field + [t[0]], record, Bare);
    } else {
      FieldEnds(s, field, record, mode);
    }
  }

  /** What a quoted field has so far stays. */
  lemma {:induction false} FieldKept(s: string, field: string, record: Record, mode: Mode)
    requires mode in {Quoted, AfterQuote} && ParseFrom(s, field, record, mode).Some?
    ensures var r := ParseFrom(s, field, record, mode);
      FieldAt(r, |record|) && Prefixed(r.value[0][|record|], field)
    decreases |s|
  {
    if s == "" {
    } else if mode == Quoted && s[0] == '"' {
      FieldKept(s[1..], field, record, AfterQuote);
    } else if mode == Quoted || s[0] == '"' {
      FieldKept(s[1..], field + [s[0]], record, Quoted);
      var f := ParseFrom(s, field, record, mode).value[0][|record|];
      assert f[..|field|] == f[..|field| + 1][..|field|];
    } else {
      FieldEnds(s, field, record, mode);
    }
  }

  function LeadingQuotes(s: string): nat {
    if s != "" && s[0] == '"' then 1 + LeadingQuotes(s[1..]) else 0
  }

  lemma {:induction false} LeadingQuotesThen(q: string, s: string)
    requires (forall i :: 0 <= i < |q| ==> q[i] == '"') && (s == "" || s[0] != '"')
    ensures LeadingQuotes(q + s) == |q|
    decreases |q|
  {
    if q == "" {
      assert q + s == s;
    } else {
      assert (q + s)[1..] == q[1..] + s;
      LeadingQuotesThen(q[1..], s);
    }
  }

  lemma {:induction false} LeadingQuotesOfFront(t: string, w: string)
    requires w != "" && w[0] != '"'
    ensures LeadingQuotes(t + w) == LeadingQuotes(t) < |t + w|
    decreases |t|
  {
    if t == "" {
      assert t + w == w;
    } else {
      assert (t + w)[1..] == t[1..] + w;
      LeadingQuotesOfFront(t[1..], w);
    }
  }

  /** Two quotes in the text make one in the field. */
  lemma {:induction false} QuotesHalved(s: string, field: string, record: Record, mode: Mode)
    requires mode in {Quoted, AfterQuote} && (forall i :: 0 <= i < |field| ==> field[i] == '"')
    requires LeadingQuotes(s) < |s| && ParseFrom(s, field, record, mode).Some?
    ensures var r := ParseFrom(s, field, record, mode);
      && FieldAt(r, |record|)
      && 2 * LeadingQuotes(r.value[0][|record|]) <=
           2 * |field| + LeadingQuotes(s) + (if mode == AfterQuote then 1 else 0)
    decreases |s|
  {
    if s[0] == '"' {
      if mode == Quoted {
        QuotesHalved(s[1..], field, record, AfterQuote);
      } else {
        QuotesHalved(s[1..], field + ['"'], record, Quoted);
      }
    } else if mode == Quoted {
      FieldKept(s[1..], field + [s[0]], record, Quoted);
      var f := ParseFrom(s, field, record, mode).value[0][|record|];
      assert f == field + f[|field|..] && f[|field|] == f[..|field| + 1][|field|] == s[0];
      LeadingQuotesThen(field, f[|field|..]);
    } else {
      FieldEnds(s, field, record, mode);
      LeadingQuotesThen(field, "");
      assert field + "" == field;
    }
  }

  /** An unquoted text that is not plain is rejected or read as something else. */
  lemma {:induction false} UnplainTells(t: string, w: string, record: Record)
    requires !Plain(t) && w != "" && w[0] != '"' && ParseFrom(t + w, "", record, Before).Some?
    ensures var r := ParseFrom(t + w, "", record, Before);
      FieldAt(r, |record|) && r.value[0][|record|] != t
  {
    var s := t + w;
    if t[0] == '"' {
      assert s[1..] == t[1..] + w;
      LeadingQuotesOfFront(t, w);
      LeadingQuotesOfFront(t[1..], w);
      QuotesHalved(s[1..], "", record, Quoted);
    } else {
      BareCut(t, w, "", record, Before);
    }
  }

  /** An unquoted cell that is alone on its line is read back exactly if it is plain. */
  lemma {:induction false} UnquotedSurvivesIffPlain(t: string)
    ensures ParseCsv(t + "\n") == Some([[t]]) <==> Plain(t)
  {
    var s := t + "\n";
    if Plain(t) {
      CellParses(Plainly(t), '\n', "", []);
      assert Write(Plainly(t)) + ['\n'] + "" == s;
      assert [] + [t] == [t] && [[t]] + [] == [[t]];
    } else if ParseCsv(s).Some? {
      UnplainTells(t, "\n", []);
    }
  }

  // ---------- the whole file ----------

  /** The text fields that the export writes without quotes hold nothing that CSV
      gives a meaning to. */
  ghost predicate ReadableLog(log: AuditLog, users: map<int, string>) {
    && Plain(log.action) && Plain(log.entityType) && Plain(Username(log, users)) && Plain(log.timestamp)
    && (log.ipAddress.Some? ==> Plain(log.ipAddress.value))
  }

  lemma CellsReadable(log: AuditLog, users: map<int, string>)
    requires ReadableLog(log, users)
    ensures forall i :: 0 <= i < |Cells(log, users)| ==> Readable(Cells(log, users)[i])
  {
    NumbersPlain(log.id);
    if log.entityId.Some? { NumbersPlain(log.entityId.value); }
    if log.userId.Some? { NumbersPlain(log.userId.value); }
  }

  lemma CellsTell(log: AuditLog, users: map<int, string>)
    requires forall i :: 0 <= i < |Cells(log, users)| ==> Readable(Cells(log, users)[i])
    ensures ReadableLog(log, users)
  {
    var c := Cells(log, users);
    assert Readable(c[1]) && Readable(c[2]) && Readable(c[5]) && Readable(c[7]) && Readable(c[8]);
  }

  lemma NumbersPlain(n: int)
    ensures Plain(DecInt(n))
  {
    DecIntChars(n);
  }

  lemma {:induction false} RowsParse(logs: seq<AuditLog>, users: map<int, string>)
    requires forall i :: 0 <= i < |logs| ==> ReadableLog(logs[i], users)
    ensures ParseFrom(Rows(logs, users), "", [], Before) == Some(Values(logs, users))
    decreases |logs|
  {
    if logs != [] {
      CellsReadable(logs[0], users);
      RowsParse(logs[1..], users);
      RowParses(Cells(logs[0], users), Rows(logs[1..], users), []);
      assert [] + Texts(Cells(logs[0], users)) == Texts(Cells(logs[0], users));
    }
  }

  lemma CellTells(c: Cell, end: char, more: string, record: Record)
    requires end != '"'
    requires var r := ParseFrom(Write(c) + [end] + more, "", record, Before);
      FieldAt(r, |record|) && r.value[0][|record|] == c.text
    ensures Readable(c)
  {
    if !Readable(c) {
      assert Write(c) + [end] + more == c.text + ([end] + more);
      UnplainTells(c.text, [end] + more, record);
    }
  }

  /** A row whose values are read back has no unreadable cell. */
  lemma {:induction false} RowTells(cells: seq<Cell>, rest: string, record: Record)
    requires cells != []
    requires var r := ParseFrom(WriteRow(cells) + rest, "", record, Before);
      r.Some? && r.value != [] && r.value[0] == record + Texts(cells)
    ensures forall i :: 0 <= i < |cells| ==> Readable(cells[i])
    decreases |cells|
  {
    var c := cells[0];
    RowSplit(cells, rest);
    TextsSplit(cells, record);
    if |cells| == 1 {
      CellTells(c, '\n', rest, record);
    } else {
      var more := WriteRow(cells[1..]) + rest;
      CellTells(c, ',', more, record);
      CellParses(c, ',', more, record);
      RowTells(cells[1..], rest, record + [c.text]);
    }
  }

  lemma {:induction false} RowsTell(logs: seq<AuditLog>, users: map<int, string>)
    requires ParseFrom(Rows(logs, users), "", [], Before) == Some(Values(logs, users))
    ensures forall i :: 0 <= i < |logs| ==> ReadableLog(logs[i], users)
    decreases |logs|
  {
    if logs != [] {
      var cells, rest := Cells(logs[0], users), Rows(logs[1..], users);
      assert [] + Texts(cells) == Texts(cells);
      RowTells(cells, rest, []);
      CellsTell(logs[0], users);
      RowParses(cells, rest, []);
      PrependTells(Texts(cells), ParseFrom(rest, "", [], Before), Values(logs[1..], users));
      RowsTell(logs[1..], users);
    }
  }

  lemma PrependTells(r: Record, rest: Option<seq<Record>>, rs: seq<Record>)
    requires Prepend(r, rest) == Some([r] + rs)
    ensures rest == Some(rs)
  {
    assert ([r] + rest.value)[1..] == rest.value && ([r] + rs)[1..] == rs;
  }

  lemma LettersAndSpacesPlain(s: string)
    requires forall i :: 0 <= i < |s| ==> 'A' <= s[i] <= 'Z' || 'a' <= s[i] <= 'z' || s[i] == ' '
    ensures Plain(s)
  {
  }

  lemma HeaderReadable()
    ensures forall i :: 0 <= i < |HeaderCells()| ==> Readable(HeaderCells()[i])
  {
    var c := HeaderCells();
    forall i | 0 <= i < |c|
      ensures Readable(c[i])
    {
      LettersAndSpacesPlain(c[i].text);
    }
  }

  /** The nine values a reader should find for one entry. */
  function Fields(log: AuditLog, users: map<int, string>): Record {
    [DecInt(log.id), log.action, log.entityType, Number(log.entityId), Number(log.userId), Username(log, users),
     if log.details.Some? then OneLine(log.details.value) else "",
     if log.ipAddress.Some? then log.ipAddress.value else "", log.timestamp]
  }

  /** What belongs under each title. */
  function Titled(title: string, log: AuditLog, users: map<int, string>): string {
    if title == "ID" then DecInt(log.id)
    else if title == "Action" then log.action
    else if title == "Entity Type" then log.entityType
    else if title == "Entity ID" then (if log.entityId.Some? then DecInt(log.entityId.value) else "")
    else if title == "User ID" then (if log.userId.Some? then DecInt(log.userId.value) else "")
    else if title == "Username" then
      if log.userId.Some? && log.userId.value in users then users[log.userId.value] else ""
    else if title == "Details" then (if log.details.Some? then OneLine(log.details.value) else "")
    else if title == "IP Address" then (if log.ipAddress.Some? then log.ipAddress.value else "")
    else if title == "Timestamp" then log.timestamp
    else ""
  }

  /** Every entry's values stand under their titles. */
  lemma {:induction false} ColumnsAsTitled(log: AuditLog, users: map<int, string>, i: nat)
    requires i < 9
    ensures |Texts(HeaderCells())| == |Fields(log, users)| == 9
    ensures Fields(log, users)[i] == Titled(Texts(HeaderCells())[i], log, users)
  {
    assert Texts(HeaderCells())[i] == HeaderCells()[i].text;
  }

  /** A reader of the file finds the header and the values of every entry, in order. */
  ghost predicate ReadsBack(csv: string, logs: seq<AuditLog>, users: map<int, string>) {
    ParseCsv(csv) == Some([Texts(HeaderCells())] + Values(logs, users))
  }

  /** Reading the export gives back the header and, for every entry in order, its nine
      values, with newlines in Details turned into spaces and absent values empty,
      exactly when every entry's unquoted fields are plain. */
  lemma {:induction false} ExportRoundTrip(logs: seq<AuditLog>, users: map<int, string>)
    ensures ReadsBack(Header() + Rows(logs, users), logs, users) <==>
      forall i :: 0 <= i < |logs| ==> ReadableLog(logs[i], users)
    ensures |Values(logs, users)| == |logs|
    ensures forall i :: 0 <= i < |logs| ==> Values(logs, users)[i] == Fields(logs[i], users)
  {
    HeaderReadable();
    RowParses(HeaderCells(), Rows(logs, users), []);
    assert [] + Texts(HeaderCells()) == Texts(HeaderCells());
    if forall i :: 0 <= i < |logs| ==> ReadableLog(logs[i], users) {
      RowsParse(logs, users);
    } else if ReadsBack(Header() + Rows(logs, users), logs, users) {
      PrependTells(Texts(HeaderCells()), ParseFrom(Rows(logs, users), "", [], Before), Values(logs, users));
      RowsTell(logs, users);
    }
    ValuesAt(logs, users);
  }

  lemma {:induction false} ValuesAt(logs: seq<AuditLog>, users: map<int, string>)
    ensures |Values(logs, users)| == |logs|
    ensures forall i :: 0 <= i < |logs| ==> Values(logs, users)[i] == Fields(logs[i], users)
    decreases |logs|
  {
    if logs != [] {
      ValuesAt(logs[1..], users);
      assert Texts(Cells(logs[0], users)) == Fields(logs[0], users);
    }
  }

  // ---------- the writer ----------

  lemma {:induction false} QuotesDoubled(s: string)
    ensures ReplaceAll(s, "\"", "\"\"") == Escape(s)
    decreases |s|
  {
    if s != "" {
      QuotesDoubled(s[1..]);
      assert s[..1] == [s[0]];
    }
  }

  lemma {:induction false} NewlinesReplaced(s: string)
    ensures ReplaceAll(Escape(s), "\n", " ") == Escape(OneLine(s))
    decreases |s|
  {
    if s != "" {
      NewlinesReplaced(s[1..]);
      var tail := Escape(s[1..]);
      var o := OneLine(s);
      assert o[1..] == OneLine(s[1..]);
      if s[0] == '"' {
        ReplaceAllSkips("\"\"", tail, "\n", " ");
      } else if s[0] == '\n' {
        assert [s[0]] == "\n";
        ReplaceAllMatch(tail, "\n", " ");
      } else {
        ReplaceAllSkips([s[0]], tail, "\n", " ");
      }
    }
  }

  /** Sprintf with a verb for every field, commas in between and a newline. */
  function Sprintf(f: seq<string>): string {
    if f == [] then "\n"
    else if |f| == 1 then f[0] + "\n"
    else f[0] + "," + Sprintf(f[1..])
  }

  lemma {:induction false} SprintfIsRow(c: seq<Cell>, f: seq<string>)
    requires |c| == |f| && forall i :: 0 <= i < |f| ==> f[i] == Write(c[i])
    ensures Sprintf(f) == WriteRow(c)
    decreases |c|
  {
    if |c| > 1 {
      SprintfIsRow(c[1..], f[1..]);
    }
  }

  method QuoteDetails(details: Option<string>) returns (r: string)
    ensures r == if details.Some? then Write(InQuotes(OneLine(details.value))) else ""
  {
    r := "";
    if details.Some? {
      QuotesDoubled(details.value);
      NewlinesReplaced(details.value);
      r := ReplaceAll(details.value, "\"", "\"\"");
      r := ReplaceAll(r, "\n", " ");
      r := "\"" + r + "\"";
    }
  }

  /** One turn of the export loop. */
  method Row(log: AuditLog, users: map<int, string>) returns (row: string)
    ensures row == WriteRow(Cells(log, users))
  {
    var username := "";
    if log.userId.Some? && log.userId.value in users {
      username := users[log.userId.value];
    }
    var details := QuoteDetails(log.details);
    var ipAddress := if log.ipAddress.Some? then log.ipAddress.value else "";
    var fields := [DecInt(log.id), log.action, log.entityType, Number(log.entityId), Number(log.userId),
                   username, details, ipAddress, log.timestamp];
    SprintfIsRow(Cells(log, users), fields);
    row := Sprintf(fields);
  }

  lemma RowsStep(logs: seq<AuditLog>, users: map<int, string>, i: nat, done: string)
    requires i < |logs|
    ensures done + Rows(logs[i..], users) == (done + WriteRow(Cells(logs[i], users))) + Rows(logs[i + 1..], users)
  {
    assert logs[i..][1..] == logs[i + 1..];
    var row, rest := WriteRow(Cells(logs[i], users)), Rows(logs[i + 1..], users);
    assert done + (row + rest) == (done + row) + rest;
  }

  /** The content of the download. */
  method ExportCsv(logs: seq<AuditLog>, users: map<int, string>) returns (csvContent: string)
    ensures csvContent == Header() + Rows(logs, users)
    ensures ReadsBack(csvContent, logs, users) <==>
      forall i :: 0 <= i < |logs| ==> ReadableLog(logs[i], users)
  {
    ghost var all := Header() + Rows(logs, users);
    csvContent := Header();
    assert logs[0..] == logs;
    var i := 0;
    while i < |logs|
      invariant 0 <= i <= |logs|
      invariant csvContent + Rows(logs[i..], users) == all
    {
      var row := Row(logs[i], users);
      RowsStep(logs, users, i, csvContent);
      csvContent := csvContent + row;
      i := i + 1;
    }
    assert csvContent + "" == csvContent;
    ExportRoundTrip(logs, users);
  }
}
