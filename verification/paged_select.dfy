/** The paged table read of the driver (`DatabaseDriver.selectFromTable`): the SQL
    text with the escaped table name spliced in, and its two bound arguments. */
module PagedSelect {
  import opened Common
  import opened EscapeIdent
  import opened StreamHolder
  import opened DatabaseDriver

  const SelectHead: string := "SELECT * FROM "
  const LimitClause: string := " LIMIT ?"
  const OffsetClause: string := " OFFSET ?;"
  const SelectTail: string := LimitClause + OffsetClause

  /** The statement `selectFromTable` sends, as written: the escaped name is spliced
      in without the double quotes its escaping is meant for. */
  function SelectStatement(table: string, limit: int, offset: int): (st: Stmt)
    ensures st.args == [Integer(limit), Integer(offset)]
    ensures |st.sql| == |SelectHead| + |table| + Count(table, Quote) + |SelectTail|
    ensures SelectHead <= st.sql
    ensures TableOf(st.sql) == Some(table)
  {
    var sql := SelectHead + EscapeId(table) + SelectTail;
    assert sql[|SelectHead|..|sql| - |SelectTail|] == EscapeId(table);
    assert sql[..|SelectHead|] == SelectHead;
    assert sql[|sql| - |SelectTail|..] == SelectTail;
    UnescapeEscape(table);
    Stmt(sql, [Integer(limit), Integer(offset)])
  }

  /** Reads the table name back out of a paged-read statement text. */
  function TableOf(sql: string): Option<string>
  {
    if |sql| >= |SelectHead| + |SelectTail|
       && sql[..|SelectHead|] == SelectHead
       && sql[|sql| - |SelectTail|..] == SelectTail
    then
      var middle := sql[|SelectHead|..|sql| - |SelectTail|];
      if QuotesPaired(middle) then Some(UnescapeId(middle)) else None
    else None
  }

  /** Different tables never give the same statement text. */
  lemma SelectStatementInjective(t1: string, t2: string, limit: int, offset: int)
    requires SelectStatement(t1, limit, offset).sql == SelectStatement(t2, limit, offset).sql
    ensures t1 == t2
  {
    assert TableOf(SelectStatement(t1, limit, offset).sql) == Some(t1);
  }

  /** `selectFromTable(tableName, {limit, offset})`: send the paged-read statement. */
  function SelectFromTable<S>(w: World<S>, table: string, limit: int, offset: int, exec: Exec<S>): (r: (Reply, World<S>))
    ensures |r.1.sent| == |w.sent| + 1 && r.1.sent[..|w.sent|] == w.sent
    ensures r.1.holder == GetStream(w.holder).holder
    ensures r.1.sent[|w.sent|].streamId == GetStream(w.holder).stream.id
    ensures r.1.sent[|w.sent|].stmt.args == [Integer(limit), Integer(offset)]
    ensures TableOf(r.1.sent[|w.sent|].stmt.sql) == Some(table)
    ensures var answer := exec(w.remote, GetStream(w.holder).stream, r.1.sent[|w.sent|].stmt);
            r.0 == answer.0 && r.1.remote == answer.1
  {
    Query(w, SelectStatement(table, limit, offset), exec)
  }

  // ---------------------------------------------------------------------------
  // Placeholders. SQLite numbers every `?` outside a quoted token as a
  // parameter; a double quote opens or closes a quoted identifier. String
  // literals and comments are not part of this scan.

  /** The `?` placeholders of `s` scanned from state `quoted`, and the state at its end. */
  function Scan(s: string, quoted: bool): (r: (nat, bool))
  {
    if |s| == 0 then (0, quoted)
    else
      var rest := Scan(s[1..], if s[0] == Quote then !quoted else quoted);
      ((if s[0] == '?' && !quoted then 1 else 0) + rest.0, rest.1)
  }

  function Placeholders(sql: string): nat
  {
    Scan(sql, false).0
  }

  lemma {:induction false} ScanConcat(a: string, b: string, q: bool)
    ensures Scan(a + b, q) == (Scan(a, q).0 + Scan(b, Scan(a, q).1).0, Scan(b, Scan(a, q).1).1)
  {
    if |a| > 0 {
      assert (a + b)[0] == a[0];
      assert (a + b)[1..] == a[1..] + b;
      ScanConcat(a[1..], b, if a[0] == Quote then !q else q);
    } else {
      assert a + b == b;
    }
  }

  /** Text without quotes counts each of its `?` outside quotes and none inside. */
  lemma {:induction false} ScanPlain(s: string, q: bool)
    requires Quote !in s
    ensures Scan(s, q) == (if q then 0 else Count(s, '?'), q)
  {
    if |s| > 0 {
      assert Quote !in s[1..] by {
        forall c | c in s[1..] ensures c != Quote {
          var j :| 0 <= j < |s[1..]| && s[1..][j] == c;
          assert s[j + 1] == c;
        }
      }
      ScanPlain(s[1..], q);
    }
  }

  /** Inside a quoted identifier, an escaped name is one identifier: it holds no
      placeholder and leaves the identifier open. */
  lemma {:induction false} ScanEscaped(t: string)
    ensures Scan(EscapeId(t), true) == (0, true)
  {
    if |t| > 0 {
      ScanConcat(EscapePiece(t[0]), EscapeId(t[1..]), true);
      ScanEscaped(t[1..]);
      if t[0] == Quote {
        assert EscapePiece(t[0])[1..] == [Quote];
        assert EscapePiece(t[0])[1..][1..] == [];
      } else {
        assert EscapePiece(t[0])[1..] == [];
      }
    }
  }

  lemma SelectTailScan()
    ensures Scan(SelectTail, false) == (2, false)
  {
    assert Quote !in SelectTail;
    ScanPlain(SelectTail, false);
    SelectTailCount();
  }

  lemma SelectTailCount()
    ensures Count(SelectTail, '?') == 2
  {
    CountAppend(LimitClause, OffsetClause, '?');
    LimitCount();
    OffsetCount();
  }

  lemma LimitCount()
    ensures Count(LimitClause, '?') == 1
  {
  }

  lemma OffsetCount()
    ensures Count(OffsetClause, '?') == 1
  {
  }

  lemma SelectHeadScan()
    ensures Scan(SelectHead, false) == (0, false)
  {
    assert Quote !in SelectHead && '?' !in SelectHead;
    ScanPlain(SelectHead, false);
    CountZero(SelectHead, '?');
  }

  /** As written, a quote-free table name containing `?` adds placeholders: the
      statement then has more placeholders than its two arguments. */
  lemma {:induction false} SelectPlaceholdersAsWritten(table: string, limit: int, offset: int)
    requires Quote !in table
    ensures Placeholders(SelectStatement(table, limit, offset).sql) == 2 + Count(table, '?')
    ensures Placeholders(SelectStatement(table, limit, offset).sql) == |SelectStatement(table, limit, offset).args|
            <==> '?' !in table
  {
    var sql := SelectHead + EscapeId(table) + SelectTail;
    ScanConcat(SelectHead + EscapeId(table), SelectTail, false);
    ScanConcat(SelectHead, EscapeId(table), false);
    SelectHeadScan();
    ScanPlain(EscapeId(table), false);
    SelectTailScan();
    CountZero(table, '?');
  }

  /** The table name `a?b` gives three placeholders for two bound arguments. */
  lemma SelectPlaceholderMismatch()
    ensures var st := SelectStatement("a?b", 10, 0);
            Placeholders(st.sql) == 3 && |st.args| == 2
  {
    SelectPlaceholdersAsWritten("a?b", 10, 0);
    OneQuestionMark();
  }

  lemma OneQuestionMark()
    ensures Count("a?b", '?') == 1
  {
    assert "a?b"[1..] == "?b";
    assert Count("?b", '?') == 1 + Count("b", '?');
  }

  /** The statement with the escaped name inside double quotes, as its escaping intends. */
  function QuotedSelectStatement(table: string, limit: int, offset: int): (st: Stmt)
    ensures st.args == [Integer(limit), Integer(offset)]
    ensures Placeholders(st.sql) == |st.args|
    ensures QuotedTableOf(st.sql) == Some(table)
  {
    var id := [Quote] + EscapeId(table) + [Quote];
    var sql := SelectHead + id + SelectTail;
    QuotedPlaceholders(table);
    assert sql[|SelectHead|..|sql| - |SelectTail|] == id;
    assert sql[..|SelectHead|] == SelectHead;
    assert sql[|sql| - |SelectTail|..] == SelectTail;
    assert id[1..|id| - 1] == EscapeId(table);
    UnescapeEscape(table);
    Stmt(sql, [Integer(limit), Integer(offset)])
  }

  /** `selectFromTable` with the name quoted: every table name, whatever it holds,
      yields a statement whose placeholders match its two arguments. */
  function QuotedSelectFromTable<S>(w: World<S>, table: string, limit: int, offset: int, exec: Exec<S>): (r: (Reply, World<S>))
    ensures |r.1.sent| == |w.sent| + 1 && r.1.sent[..|w.sent|] == w.sent
    ensures var st := r.1.sent[|w.sent|].stmt;
            && st.args == [Integer(limit), Integer(offset)]
            && Placeholders(st.sql) == |st.args|
            && QuotedTableOf(st.sql) == Some(table)
  {
    Query(w, QuotedSelectStatement(table, limit, offset), exec)
  }

  lemma QuotedPlaceholders(table: string)
    ensures Placeholders(SelectHead + ([Quote] + EscapeId(table) + [Quote]) + SelectTail) == 2
  {
    var id := [Quote] + EscapeId(table) + [Quote];
    ScanConcat(SelectHead + id, SelectTail, false);
    ScanConcat(SelectHead, id, false);
    SelectHeadScan();
    ScanConcat([Quote] + EscapeId(table), [Quote], false);
    ScanConcat([Quote], EscapeId(table), false);
    assert [Quote][1..] == [];
    ScanEscaped(table);
    SelectTailScan();
  }

  /** Reads the table name back out of a quoted paged-read statement text. */
  function QuotedTableOf(sql: string): Option<string>
  {
    if |sql| >= |SelectHead| + |SelectTail| + 2
       && sql[..|SelectHead|] == SelectHead
       && sql[|sql| - |SelectTail|..] == SelectTail
    then
      var id := sql[|SelectHead|..|sql| - |SelectTail|];
      var inner := id[1..|id| - 1];
      if id[0] == Quote && id[|id| - 1] == Quote && QuotesPaired(inner) then Some(UnescapeId(inner)) else None
    else None
  }
}
