/** The database driver's query operations (`DatabaseDriver.query`,
    `multipleQuery` and `getTableList`) over an abstract remote engine.

    The remote engine is a state `S` and a function `exec` that answers one
    statement sent on one stream and moves to a new state; the driver records
    every statement it sends, with the stream it sent it on. */
module DatabaseDriver {
  import opened Common
  import opened StreamHolder

  /** A cell value as the client returns it; `Missing` is a column the row lacks. */
  datatype Value = Null | Integer(i: int) | Text(s: string) | Blob(bytes: seq<byte>) | Missing

  /** A result row, by column name. */
  type Row = map<string, Value>

  function Field(row: Row, column: string): Value
  {
    if column in row then row[column] else Missing
  }

  /** A statement with its positional arguments (a bare string has none). */
  datatype Stmt = Stmt(sql: string, args: seq<Value>)

  /** The engine's answer: rows, or a rejection with its message. */
  datatype Reply = Rows(rows: seq<Row>) | Failed(message: string)

  /** One statement sent, and the stream it went on. */
  datatype Sent = Sent(streamId: nat, stmt: Stmt)

  /** What the driver sees: its stream slot, the remote state, and everything sent so far. */
  datatype World<S> = World(holder: Holder, remote: S, sent: seq<Sent>)

  /** `stream.query`: the remote's answer to one statement on one stream. */
  type Exec<!S> = (S, Stream, Stmt) -> (Reply, S)

  /** `query(stmt)`: acquire the stream, send the one statement on it. */
  function Query<S>(w: World<S>, stmt: Stmt, exec: Exec<S>): (r: (Reply, World<S>))
    ensures |r.1.sent| == |w.sent| + 1 && r.1.sent[..|w.sent|] == w.sent
    ensures r.1.sent[|w.sent|].stmt == stmt
    ensures r.1.holder.stream == Some(Stream(r.1.sent[|w.sent|].streamId, false))
    ensures r.1.holder == GetStream(w.holder).holder
    ensures var a := GetStream(w.holder);
            var answer := exec(w.remote, a.stream, stmt);
            && r.0 == answer.0
            && r.1.remote == answer.1
            && r.1.sent[|w.sent|].streamId == a.stream.id
  {
    var a := GetStream(w.holder);
    var answer := exec(w.remote, a.stream, stmt);
    (answer.0, World(a.holder, answer.1, w.sent + [Sent(a.stream.id, stmt)]))
  }

  /** The statements of `multipleQuery`, as sent on stream `id`. */
  function SentOn(id: nat, statements: seq<string>): (r: seq<Sent>)
    ensures |r| == |statements|
    ensures forall i :: 0 <= i < |r| ==> r[i] == Sent(id, Stmt(statements[i], []))
  {
    seq(|statements|, i requires 0 <= i < |statements| => Sent(id, Stmt(statements[i], [])))
  }

  /** The replies the remote gives when `statements` are sent one after another on
      stream `s`, starting in state `remote`, and the state it ends in. */
  datatype Transcript<S> = Transcript(replies: seq<Reply>, remote: S)

  function RunAll<S>(remote: S, s: Stream, statements: seq<string>, exec: Exec<S>): (t: Transcript<S>)
    ensures |t.replies| == |statements|
    decreases |statements|
  {
    if |statements| == 0 then Transcript([], remote)
    else
      var before := RunAll(remote, s, statements[..|statements| - 1], exec);
      var answer := exec(before.remote, s, Stmt(statements[|statements| - 1], []));
      Transcript(before.replies + [answer.0], answer.1)
  }

  /** Running a prefix of the statements gives a prefix of the replies. */
  lemma {:induction false} RunAllPrefix<S>(remote: S, s: Stream, statements: seq<string>, i: nat, exec: Exec<S>)
    requires i <= |statements|
    ensures RunAll(remote, s, statements[..i], exec).replies == RunAll(remote, s, statements, exec).replies[..i]
    decreases |statements|
  {
    if i < |statements| {
      var shorter := statements[..|statements| - 1];
      assert shorter[..i] == statements[..i];
      RunAllPrefix(remote, s, shorter, i, exec);
    } else {
      assert statements[..i] == statements;
    }
  }

  /** `query` of a bare statement answers as the one-statement run of `multipleQuery`
      on the same stream. */
  lemma QueryIsOneStatementRun<S>(w: World<S>, statement: string, exec: Exec<S>)
    ensures var s := GetStream(w.holder).stream;
            var t := RunAll(w.remote, s, [statement], exec);
            var q := Query(w, Stmt(statement, []), exec);
            && t.replies == [q.0]
            && t.remote == q.1.remote
            && q.1.sent == w.sent + SentOn(s.id, [statement])
  {
  }

  predicate AllRows(replies: seq<Reply>)
  {
    forall i :: 0 <= i < |replies| ==> replies[i].Rows?
  }

  /** The position of the first rejection. */
  function FirstFailed(replies: seq<Reply>): (k: nat)
    requires !AllRows(replies)
    ensures k < |replies| && replies[k].Failed?
    ensures AllRows(replies[..k])
  {
    if replies[0].Failed? then 0
    else
      assert !AllRows(replies[1..]) by {
        var j :| 0 <= j < |replies| && !replies[j].Rows?;
        assert replies[1..][j - 1] == replies[j];
      }
      var k := FirstFailed(replies[1..]);
      assert replies[..k + 1] == [replies[0]] + replies[1..][..k];
      k + 1
  }

  /** The rejection at `i` is the first one when everything before it gave rows. */
  lemma FirstFailedAt(replies: seq<Reply>, i: nat)
    requires i < |replies| && replies[i].Failed? && AllRows(replies[..i])
    ensures !AllRows(replies) && FirstFailed(replies) == i
  {
    var k := FirstFailed(replies);
  }

  /** One more statement extends the transcript by that statement's answer. */
  lemma RunAllStep<S>(remote: S, s: Stream, statements: seq<string>, i: nat, exec: Exec<S>)
    requires i < |statements|
    ensures var before := RunAll(remote, s, statements[..i], exec);
            var answer := exec(before.remote, s, Stmt(statements[i], []));
            RunAll(remote, s, statements[..i + 1], exec) == Transcript(before.replies + [answer.0], answer.1)
  {
    assert statements[..i + 1][..i] == statements[..i];
  }

  /** What the loop of `multipleQuery` learns from sending statement `i`. */
  lemma RunStep<S>(remote: S, s: Stream, statements: seq<string>, i: nat, exec: Exec<S>)
    requires i < |statements|
    ensures var before := RunAll(remote, s, statements[..i], exec);
            var answer := exec(before.remote, s, Stmt(statements[i], []));
            var replies := RunAll(remote, s, statements, exec).replies;
            && RunAll(remote, s, statements[..i + 1], exec).remote == answer.1
            && replies[i] == answer.0
            && replies[..i + 1] == replies[..i] + [answer.0]
  {
    RunAllStep(remote, s, statements, i, exec);
    RunAllPrefix(remote, s, statements, i + 1, exec);
    var replies := RunAll(remote, s, statements, exec).replies;
    assert replies[..i + 1][i] == replies[i];
    assert replies[..i + 1] == replies[..i] + [replies[i]];
  }

  lemma AllRowsSnoc(replies: seq<Reply>, reply: Reply)
    requires AllRows(replies) && reply.Rows?
    ensures AllRows(replies + [reply])
  {
  }

  /** The loop of `multipleQuery` on stream `s`: sends the statements in order until
      one is rejected. `count` is how many were sent. */
  method SendAll<S>(remote0: S, s: Stream, statements: seq<string>, exec: Exec<S>)
    returns (result: Result<Option<seq<Row>>, string>, remote: S, count: nat)
    ensures count <= |statements|
    ensures remote == RunAll(remote0, s, statements[..count], exec).remote
    ensures var replies := RunAll(remote0, s, statements, exec).replies;
            if AllRows(replies) then
              && count == |statements|
              && result == Ok(if count == 0 then None else Some(replies[count - 1].rows))
            else
              && count == FirstFailed(replies) + 1
              && result == Err(replies[count - 1].message)
  {
    ghost var replies := RunAll(remote0, s, statements, exec).replies;
    remote := remote0;
    var last: Option<seq<Row>> := None;
    count := 0;
    while count < |statements|
      invariant 0 <= count <= |statements|
      invariant remote == RunAll(remote0, s, statements[..count], exec).remote
      invariant AllRows(replies[..count])
      invariant last == if count == 0 then None else Some(replies[count - 1].rows)
    {
      RunStep(remote0, s, statements, count, exec);
      var answer := exec(remote, s, Stmt(statements[count], []));
      remote := answer.1;
      if answer.0.Failed? {
        FirstFailedAt(replies, count);
        result := Err(answer.0.message);
        count := count + 1;
        return;
      }
      AllRowsSnoc(replies[..count], answer.0);
      last := Some(answer.0.rows);
      count := count + 1;
    }
    assert replies[..count] == replies;
    result := Ok(last);
  }

  /** `multipleQuery(statements)`: acquire the stream once, send the statements on it
      in order, and answer with the last statement's rows (`None` for no statements).
      A rejection ends the loop: no later statement is sent and the rejection is the
      answer. */
  method MultipleQuery<S>(w: World<S>, statements: seq<string>, exec: Exec<S>)
    returns (result: Result<Option<seq<Row>>, string>, w': World<S>)
    ensures w'.holder == GetStream(w.holder).holder
    ensures var s := GetStream(w.holder).stream;
            var replies := RunAll(w.remote, s, statements, exec).replies;
            if AllRows(replies) then
              && result == Ok(if |statements| == 0 then None else Some(replies[|replies| - 1].rows))
              && w'.sent == w.sent + SentOn(s.id, statements)
              && w'.remote == RunAll(w.remote, s, statements, exec).remote
            else
              var k := FirstFailed(replies);
              && result == Err(replies[k].message)
              && w'.sent == w.sent + SentOn(s.id, statements[..k + 1])
              && w'.remote == RunAll(w.remote, s, statements[..k + 1], exec).remote
  {
    var a := GetStream(w.holder);
    var remote, count;
    result, remote, count := SendAll(w.remote, a.stream, statements, exec);
    w' := World(a.holder, remote, w.sent + SentOn(a.stream.id, statements[..count]));
    if count == |statements| {
      assert statements[..count] == statements;
    }
  }

  /** The catalog query `getTableList` sends. */
  const SchemaQuery: string := "SELECT * FROM sqlite_schema;"

  /** An entry of the table list. */
  datatype SchemaItem = SchemaItem(name: Value)

  /** A catalog row describing a table: its `type` is the text `table`. */
  predicate IsTableRow(row: Row)
  {
    Field(row, "type") == Text("table")
  }

  /** `rows.filter(type === "table").map(name)`. */
  function TableList(rows: seq<Row>): (items: seq<SchemaItem>)
    ensures |items| <= |rows|
    ensures (forall i :: 0 <= i < |rows| ==> !IsTableRow(rows[i])) <==> items == []
  {
    if |rows| == 0 then []
    else (if IsTableRow(rows[0]) then [SchemaItem(Field(rows[0], "name"))] else []) + TableList(rows[1..])
  }

  /** The table list works row by row, keeping row order. */
  lemma {:induction false} TableListConcat(a: seq<Row>, b: seq<Row>)
    ensures TableList(a + b) == TableList(a) + TableList(b)
  {
    if |a| == 0 {
      assert a + b == b;
    } else {
      assert (a + b)[0] == a[0];
      assert (a + b)[1..] == a[1..] + b;
      TableListConcat(a[1..], b);
    }
  }

  /** A single row contributes its name exactly when it describes a table. */
  lemma TableListSingle(row: Row)
    ensures IsTableRow(row) ==> TableList([row]) == [SchemaItem(Field(row, "name"))]
    ensures !IsTableRow(row) ==> TableList([row]) == []
  {
    assert [row][1..] == [];
  }

  /** Every listed name is the name of a table row, and every table row is listed. */
  lemma {:induction false} TableListMembers(rows: seq<Row>)
    ensures forall it :: it in TableList(rows) ==>
              exists i :: 0 <= i < |rows| && IsTableRow(rows[i]) && it.name == Field(rows[i], "name")
    ensures forall i :: 0 <= i < |rows| && IsTableRow(rows[i]) ==> SchemaItem(Field(rows[i], "name")) in TableList(rows)
  {
    if |rows| > 0 {
      TableListMembers(rows[1..]);
      forall it | it in TableList(rows)
        ensures exists i :: 0 <= i < |rows| && IsTableRow(rows[i]) && it.name == Field(rows[i], "name")
      {
        if it !in TableList(rows[1..]) {
          assert IsTableRow(rows[0]) && it.name == Field(rows[0], "name");
        } else {
          var j :| 0 <= j < |rows[1..]| && IsTableRow(rows[1..][j]) && it.name == Field(rows[1..][j], "name");
          assert rows[j + 1] == rows[1..][j];
        }
      }
      forall i | 0 <= i < |rows| && IsTableRow(rows[i])
        ensures SchemaItem(Field(rows[i], "name")) in TableList(rows)
      {
        if i > 0 {
          assert rows[1..][i - 1] == rows[i];
        }
      }
    }
  }

  /** `getTableList()`: send the catalog query; on rows, list the tables; a rejection
      is passed on. */
  function GetTableList<S>(w: World<S>, exec: Exec<S>): (r: (Result<seq<SchemaItem>, string>, World<S>))
    ensures |r.1.sent| == |w.sent| + 1 && r.1.sent[..|w.sent|] == w.sent
    ensures r.1.sent[|w.sent|].stmt == Stmt(SchemaQuery, [])
    ensures r.1 == Query(w, Stmt(SchemaQuery, []), exec).1
    ensures r.0.Ok? <==> Query(w, Stmt(SchemaQuery, []), exec).0.Rows?
    ensures r.0.Ok? ==> r.0.value == TableList(Query(w, Stmt(SchemaQuery, []), exec).0.rows)
    ensures r.0.Err? ==> r.0.error == Query(w, Stmt(SchemaQuery, []), exec).0.message
  {
    var q := Query(w, Stmt(SchemaQuery, []), exec);
    match q.0
    case Rows(rows) => (Ok(TableList(rows)), q.1)
    case Failed(message) => (Err(message), q.1)
  }
}
