/** The decisions of the query tab's run handler (`onRunClicked` in `query-tab.tsx`):
    which statements a run sends, and whether a completed run touched the schema. */
module QueryTab {
  import opened Common
  import opened JsText

  // ---------------------------------------------------------------------------
  // Statement selection

  /** A statement as `identify` (from the `sql-query-identifier` package) reports it: its
      text and its character range. */
  datatype IdentifiedStatement = IdentifiedStatement(text: string, start: nat, end: nat)

  /** Finds the statement under the caret (`selectStatementFromPosition`, not part of
      this model, so it is a parameter). */
  type Locator = (seq<IdentifiedStatement>, nat) -> Option<IdentifiedStatement>

  /** The statements a click forwards. `all` is Run All; otherwise `caret` is the
      editor's caret position when the editor has a view. */
  function FinalStatements(all: bool, statements: seq<IdentifiedStatement>, caret: Option<nat>, locate: Locator): (r: seq<string>)
    ensures all ==> |r| == |statements| && forall i :: 0 <= i < |r| ==> r[i] == statements[i].text
    ensures !all ==> |r| <= 1
    ensures !all && |r| == 1 ==>
              (caret.Some? && locate(statements, caret.value).Some? && r[0] == locate(statements, caret.value).value.text)
    ensures !all && caret.Some? && locate(statements, caret.value).Some? ==> |r| == 1
  {
    if all then seq(|statements|, i requires 0 <= i < |statements| => statements[i].text)
    else match caret
      case Some(position) =>
        (match locate(statements, position)
         case Some(statement) => [statement.text]
         case None => [])
      case None => []
  }

  /** Run Current forwards one of the texts Run All would forward, whenever the
      located statement is one of the identified statements. */
  lemma RunCurrentWithinRunAll(statements: seq<IdentifiedStatement>, caret: nat, locate: Locator)
    requires locate(statements, caret).Some? && locate(statements, caret).value in statements
    ensures var current := FinalStatements(false, statements, Some(caret), locate);
            var all := FinalStatements(true, statements, Some(caret), locate);
            |current| == 1 && current[0] in all
  {
  }

  /** A click dispatches a run of `FinalStatements` only when there is at least one. */
  function OnRunClicked(all: bool, statements: seq<IdentifiedStatement>, caret: Option<nat>, locate: Locator): (run: Option<seq<string>>)
    ensures run.None? <==> FinalStatements(all, statements, caret, locate) == []
    ensures run.Some? ==> |run.value| > 0 && run.value == FinalStatements(all, statements, caret, locate)
  {
    var final := FinalStatements(all, statements, caret, locate);
    if |final| > 0 then Some(final) else None
  }

  /** Run All over an empty editor sends nothing; Run Current without a statement under
      the caret sends nothing. */
  lemma NothingToRun(statements: seq<IdentifiedStatement>, caret: Option<nat>, locate: Locator)
    ensures OnRunClicked(true, [], caret, locate) == None
    ensures (caret.None? || locate(statements, caret.value).None?) ==> OnRunClicked(false, statements, caret, locate) == None
  {
  }

  // ---------------------------------------------------------------------------
  // Schema-change detection

  /** One entry of the run's log: the statement text and whether it failed. */
  datatype LogEntry = LogEntry(sql: string, error: Option<string>)

  const CreateKeyword: string := "create "
  const DropKeyword: string := "drop "

  /** The test applied to each log entry: the trimmed text's first 7 (resp. 5)
      characters, lower-cased, are `create ` (resp. `drop `). */
  predicate MarksSchemaChange(sql: string)
  {
    IsCreate(Trim(sql)) || IsDrop(Trim(sql))
  }

  predicate IsCreate(trimmed: string)
  {
    Lower(Prefix(trimmed, |CreateKeyword|)) == CreateKeyword
  }

  predicate IsDrop(trimmed: string)
  {
    Lower(Prefix(trimmed, |DropKeyword|)) == DropKeyword
  }

  /** `t` begins with `keyword`, ignoring the case of ASCII letters. */
  predicate StartsWithIgnoringCase(t: string, keyword: string)
  {
    |t| >= |keyword| && forall i :: 0 <= i < |keyword| ==> LowerChar(t[i]) == keyword[i]
  }

  lemma PrefixLowerMatches(t: string, keyword: string)
    ensures Lower(Prefix(t, |keyword|)) == keyword <==> StartsWithIgnoringCase(t, keyword)
  {
    if StartsWithIgnoringCase(t, keyword) {
      var p := Lower(Prefix(t, |keyword|));
      assert forall i :: 0 <= i < |keyword| ==> p[i] == keyword[i];
    }
    if Lower(Prefix(t, |keyword|)) == keyword {
      assert forall i :: 0 <= i < |keyword| ==> Lower(Prefix(t, |keyword|))[i] == LowerChar(t[i]);
    }
  }

  /** The entry test is a case-insensitive prefix test on the trimmed text. */
  lemma MarksSchemaChangeMeaning(sql: string)
    ensures MarksSchemaChange(sql) <==>
              StartsWithIgnoringCase(Trim(sql), CreateKeyword) || StartsWithIgnoringCase(Trim(sql), DropKeyword)
  {
    PrefixLowerMatches(Trim(sql), CreateKeyword);
    PrefixLowerMatches(Trim(sql), DropKeyword);
  }

  /** Whitespace around a statement does not change the decision. */
  lemma MarksSchemaChangeIgnoresPadding(before: string, sql: string, after: string)
    requires AllWhitespace(before) && AllWhitespace(after)
    ensures MarksSchemaChange(before + sql + after) <==> MarksSchemaChange(sql)
  {
    TrimPadded(before, sql, after);
  }

  /** A match needs a literal space right after the keyword. */
  lemma KeywordNeedsSpace(sql: string)
    requires MarksSchemaChange(sql)
    ensures var t := Trim(sql);
            (|t| >= 7 && t[6] == ' ') || (|t| >= 5 && t[4] == ' ')
  {
    MarksSchemaChangeMeaning(sql);
  }

  /** A statement whose trimmed text does not begin with `c`/`C` or `d`/`D` (such as
      `alter`, `select`, `insert`, `update`) never matches. */
  lemma OtherStatementsDoNotMatch(sql: string)
    requires |Trim(sql)| > 0 && LowerChar(Trim(sql)[0]) != 'c' && LowerChar(Trim(sql)[0]) != 'd'
    ensures !MarksSchemaChange(sql)
  {
    MarksSchemaChangeMeaning(sql);
  }

  /** Text with no whitespace at either end is its own trim. */
  lemma TrimUnpadded(s: string)
    requires |s| > 0 && !IsWhitespace(s[0]) && !IsWhitespace(s[|s| - 1])
    ensures Trim(s) == s
  {
  }

  lemma CreateTableMatches()
    ensures MarksSchemaChange("CREATE TABLE t (x int);")
  {
    TrimUnpadded("CREATE TABLE t (x int);");
    MarksSchemaChangeMeaning("CREATE TABLE t (x int);");
  }

  lemma BareKeywordDoesNotMatch()
    ensures !MarksSchemaChange("create")
    ensures !MarksSchemaChange("drop\ttable t")
  {
    TrimUnpadded("create");
    TrimUnpadded("drop\ttable t");
    MarksSchemaChangeMeaning("create");
    MarksSchemaChangeMeaning("drop\ttable t");
    assert LowerChar("drop\ttable t"[4]) != DropKeyword[4];
    assert LowerChar("drop\ttable t"[0]) != CreateKeyword[0];
  }

  lemma SelectAndAlterDoNotMatch()
    ensures !MarksSchemaChange("SELECT * FROM t;")
    ensures !MarksSchemaChange("ALTER TABLE t ADD y")
  {
    TrimUnpadded("SELECT * FROM t;");
    TrimUnpadded("ALTER TABLE t ADD y");
    OtherStatementsDoNotMatch("SELECT * FROM t;");
    OtherStatementsDoNotMatch("ALTER TABLE t ADD y");
  }

  /** Some entry of the log, failed or not, passes the entry test. */
  predicate SchemaChanged(logs: seq<LogEntry>)
  {
    exists i :: 0 <= i < |logs| && MarksSchemaChange(logs[i].sql)
  }

  /** The loop over the completed run's log, stopping at the first match; `examined`
      is how many entries it looked at. */
  method HasAlterSchema(logs: seq<LogEntry>) returns (changed: bool, examined: nat)
    ensures changed <==> SchemaChanged(logs)
    ensures examined <= |logs|
    ensures changed ==> examined > 0 && MarksSchemaChange(logs[examined - 1].sql)
    ensures forall i :: 0 <= i < examined - 1 ==> !MarksSchemaChange(logs[i].sql)
    ensures !changed ==> examined == |logs|
  {
    changed := false;
    examined := 0;
    while examined < |logs|
      invariant examined <= |logs| && !changed
      invariant forall i :: 0 <= i < examined ==> !MarksSchemaChange(logs[i].sql)
    {
      var sql := Trim(logs[examined].sql);
      examined := examined + 1;
      if IsCreate(sql) {
        changed := true;
        break;
      } else if IsDrop(sql) {
        changed := true;
        break;
      }
    }
  }

  /** What the completion handler does: show the results, and ask for a schema refresh
      exactly when the log shows a schema change. */
  datatype Completion<R> = Completion(shown: seq<R>, schemaRefreshes: nat)

  method OnRunComplete<R>(results: seq<R>, logs: seq<LogEntry>) returns (c: Completion<R>)
    ensures c.shown == results
    ensures c.schemaRefreshes == if SchemaChanged(logs) then 1 else 0
  {
    var changed, _ := HasAlterSchema(logs);
    c := Completion(results, if changed then 1 else 0);
  }
}
