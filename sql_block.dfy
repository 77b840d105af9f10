/// The SQL exercise block (src/components/SQLQueryBlock.tsx): how a query
/// result becomes row objects, how the verdict is chosen, and `checkResult`.
/// The SQL engine is a parameter: `exec` maps the trimmed query to the
/// result sets it returns or the error it throws.
module SqlBlock {
  import opened JsString
  import opened Wrappers
  import opened OrderedMap
  import opened Grouping

  /** A cell as the engine returns it; `Undefined` is what `row[index]`
      reads past the end of a row. */
  datatype Value = Null | Num(int) | Text(string) | Undefined

  /** A row object: its properties in insertion order. */
  type Row = Assoc<string, Value>

  datatype ResultSet = ResultSet(columns: seq<string>, values: seq<seq<Value>>)

  /** What `db.exec` does with the query. */
  datatype Exec = Threw(message: string) | Returned(sets: seq<ResultSet>)

  const NotInitialized := "SQL.jsが初期化されていません"
  const SqlErrorFallback := "SQLエラーが発生しました"

  function Cell(row: seq<Value>, i: nat): Value {
    if i < |row| then row[i] else Undefined
  }

  /** The object the inner `forEach` builds: `obj[columns[i]] = row[i]`
      for each `i` in turn. */
  function RowObject(columns: seq<string>, row: seq<Value>): Row
    decreases |columns|
  {
    if |columns| == 0 then []
    else
      var n := |columns| - 1;
      Put(RowObject(columns[..n], row), columns[n], Cell(row, n))
  }

  /** The last position a column name occupies. */
  function LastIndexOf(columns: seq<string>, c: string): (r: int)
    ensures -1 <= r < |columns|
    ensures r >= 0 ==> columns[r] == c
    ensures forall j :: r < j < |columns| ==> columns[j] != c
    ensures r == -1 <==> c !in columns
    decreases |columns|
  {
    if |columns| == 0 then -1
    else if columns[|columns| - 1] == c then |columns| - 1
    else
      var r := LastIndexOf(columns[..|columns| - 1], c);
      assert c in columns[..|columns| - 1] ==> c in columns;
      assert c in columns ==> c in columns[..|columns| - 1] by {
        if c in columns {
          var i :| 0 <= i < |columns| && columns[i] == c;
          assert columns[..|columns| - 1][i] == c;
        }
      }
      r
  }

  /** Each column name becomes a property holding the value of its LAST
      occurrence in the row; no other property exists. */
  lemma {:induction false} RowObjectGet(columns: seq<string>, row: seq<Value>, c: string)
    ensures var j := LastIndexOf(columns, c);
            Get(RowObject(columns, row), c) == if j < 0 then None else Some(Cell(row, j))
    decreases |columns|
  {
    if |columns| > 0 {
      var n := |columns| - 1;
      var m := RowObject(columns[..n], row);
      RowObjectGet(columns[..n], row, c);
      if columns[n] == c {
        GetPutSame(m, c, Cell(row, n));
      } else {
        GetPutOther(m, columns[n], Cell(row, n), c);
      }
    }
  }

  /** Properties are never repeated. */
  lemma {:induction false} RowObjectDistinct(columns: seq<string>, row: seq<Value>)
    ensures DistinctKeys(RowObject(columns, row))
    decreases |columns|
  {
    if |columns| > 0 {
      var n := |columns| - 1;
      RowObjectDistinct(columns[..n], row);
      PutDistinct(RowObject(columns[..n], row), columns[n], Cell(row, n));
    }
  }

  predicate DistinctColumns(columns: seq<string>) {
    forall i, j :: 0 <= i < j < |columns| ==> columns[i] != columns[j]
  }

  /** With distinct column names the object is the row zipped with them,
      in column order. */
  lemma {:induction false} RowObjectZip(columns: seq<string>, row: seq<Value>)
    requires DistinctColumns(columns)
    ensures var r := RowObject(columns, row);
            |r| == |columns| && forall i :: 0 <= i < |columns| ==> r[i] == (columns[i], Cell(row, i))
    decreases |columns|
  {
    if |columns| > 0 {
      var n := |columns| - 1;
      var pre := columns[..n];
      assert DistinctColumns(pre) by {
        forall i, j | 0 <= i < j < |pre| ensures pre[i] != pre[j] {
          assert pre[i] == columns[i] && pre[j] == columns[j];
        }
      }
      var m := RowObject(pre, row);
      RowObjectZip(pre, row);
      assert !HasKey(m, columns[n]) by {
        forall i | 0 <= i < |m|
          ensures m[i].0 != columns[n]
        {
          assert m[i].0 == pre[i] == columns[i];
        }
      }
      PutNew(m, columns[n], Cell(row, n));
      var r := RowObject(columns, row);
      assert r == m + [(columns[n], Cell(row, n))];
      forall i | 0 <= i < |columns|
        ensures r[i] == (columns[i], Cell(row, i))
      {
        if i < n {
          assert r[i] == m[i] == (pre[i], Cell(row, i));
        }
      }
    }
  }

  /** The inner `forEach`. */
  method BuildRow(columns: seq<string>, row: seq<Value>) returns (obj: Row)
    ensures obj == RowObject(columns, row)
  {
    obj := [];
    var i := 0;
    while i < |columns|
      invariant 0 <= i <= |columns|
      invariant obj == RowObject(columns[..i], row)
    {
      assert columns[..i + 1][..i] == columns[..i];
      obj := Put(obj, columns[i], Cell(row, i));
      i := i + 1;
    }
    assert columns[..i] == columns;
  }

  /** `values.map(row => ...)` for the given columns. */
  function RowsOf(columns: seq<string>, values: seq<seq<Value>>): seq<Row>
    decreases |values|
  {
    if |values| == 0 then []
    else RowsOf(columns, values[..|values| - 1]) + [RowObject(columns, values[|values| - 1])]
  }

  /** One row object per row of values, in order. */
  lemma {:induction false} RowsOfAt(columns: seq<string>, values: seq<seq<Value>>)
    ensures |RowsOf(columns, values)| == |values|
    ensures forall i :: 0 <= i < |values| ==> RowsOf(columns, values)[i] == RowObject(columns, values[i])
    decreases |values|
  {
    if |values| > 0 {
      var n := |values| - 1;
      RowsOfAt(columns, values[..n]);
      assert forall i :: 0 <= i < n ==> values[..n][i] == values[i];
    }
  }

  /** `firstResult.values.map(...)`. */
  method BuildRows(columns: seq<string>, values: seq<seq<Value>>) returns (rows: seq<Row>)
    ensures rows == RowsOf(columns, values)
  {
    rows := [];
    var i := 0;
    while i < |values|
      invariant 0 <= i <= |values|
      invariant rows == RowsOf(columns, values[..i])
    {
      assert values[..i + 1][..i] == values[..i];
      var obj := BuildRow(columns, values[i]);
      rows := rows + [obj];
      i := i + 1;
    }
    assert values[..i] == values;
  }

  /** The properties `JSON.stringify` writes: those whose value is not
      undefined, in order. */
  function Defined(row: Row): (r: Row)
    ensures |r| <= |row|
    ensures forall i :: 0 <= i < |r| ==> r[i].1 != Undefined
    decreases |row|
  {
    if |row| == 0 then []
    else
      var rest := Defined(row[..|row| - 1]);
      if row[|row| - 1].1 != Undefined then rest + [row[|row| - 1]] else rest
  }

  /** The text `sort()` compares arrays' elements by; every row object
      converts to the same string. */
  function SortKey(r: Row): string {
    "[object Object]"
  }

  /** Places `x` after every element whose key is not larger: a stable
      insertion step. */
  function InsertStable<T>(s: seq<T>, x: T, key: T -> string): (r: seq<T>)
    ensures |r| == |s| + 1
    decreases |s|
  {
    if |s| == 0 then [x]
    else if Less(key(x), key(s[|s| - 1])) then InsertStable(s[..|s| - 1], x, key) + [s[|s| - 1]]
    else s + [x]
  }

  /** `xs.sort()` with `key` as the conversion to string: a stable sort. */
  function StableSort<T>(xs: seq<T>, key: T -> string): (r: seq<T>)
    ensures |r| == |xs|
    decreases |xs|
  {
    if |xs| == 0 then [] else InsertStable(StableSort(xs[..|xs| - 1], key), xs[|xs| - 1], key)
  }

  /** When every element converts to the same string, sorting keeps the
      order. */
  lemma {:induction false} StableSortSameKey<T>(xs: seq<T>, key: T -> string, k: string)
    requires forall i :: 0 <= i < |xs| ==> key(xs[i]) == k
    ensures StableSort(xs, key) == xs
    decreases |xs|
  {
    if |xs| > 0 {
      var n := |xs| - 1;
      StableSortSameKey(xs[..n], key, k);
      LessIrreflexive(k);
      assert xs[..n] + [xs[n]] == xs;
    }
  }

  /** `rows.sort()` on row objects. */
  /** Every row object converts to the same string, so the sort keeps
      the rows in their original order. */
  function DefaultSort(rows: seq<Row>): (r: seq<Row>)
    ensures r == rows
  {
    StableSortSameKey(rows, SortKey, "[object Object]");
    StableSort(rows, SortKey)
  }

  /** `JSON.stringify` of a row array, as the sequence of what it writes
      for each row. */
  function Serialized(rows: seq<Row>): (r: seq<Row>)
    ensures |r| == |rows|
    ensures forall i :: 0 <= i < |rows| ==> r[i] == Defined(rows[i])
  {
    MapSeq(rows, Defined)
  }

  /** `checkResult`. */
  function CheckResult(actual: seq<Row>, expected: seq<Row>): bool {
    if |actual| != |expected| then false
    else Serialized(DefaultSort(actual)) == Serialized(DefaultSort(expected))
  }

  /** The comparison is row by row in the original order, by the defined
      properties in their order. */
  lemma CheckResultMeaning(actual: seq<Row>, expected: seq<Row>)
    ensures CheckResult(actual, expected) <==>
              |actual| == |expected| && forall i :: 0 <= i < |actual| ==> Defined(actual[i]) == Defined(expected[i])
  {
    assert CheckResult(actual, expected) == (|actual| == |expected| && Serialized(actual) == Serialized(expected));
    if |actual| == |expected| {
      SerializedEqual(actual, expected);
    }
  }

  lemma SerializedEqual(a: seq<Row>, b: seq<Row>)
    requires |a| == |b|
    ensures Serialized(a) == Serialized(b) <==> forall i :: 0 <= i < |a| ==> Defined(a[i]) == Defined(b[i])
  {
    if forall i :: 0 <= i < |a| ==> Defined(a[i]) == Defined(b[i]) {
      assert Serialized(a) == Serialized(b);
    }
    if Serialized(a) == Serialized(b) {
      forall i | 0 <= i < |a|
        ensures Defined(a[i]) == Defined(b[i])
      {
        assert Serialized(a)[i] == Serialized(b)[i];
      }
    }
  }

  /** The same rows with the columns in another order do not match. */
  lemma ColumnOrderMatters()
    ensures !CheckResult([[("a", Num(1)), ("b", Num(2))]], [[("b", Num(2)), ("a", Num(1))]])
  {
    var x: Row := [("a", Num(1)), ("b", Num(2))];
    var y: Row := [("b", Num(2)), ("a", Num(1))];
    CheckResultMeaning([x], [y]);
    assert Defined(x)[0] == ("a", Num(1));
    assert Defined(y)[0] == ("b", Num(2));
  }

  /** `checkFunction` when present decides; `expectedResult` only when it
      is absent; with neither the verdict stays `null`. */
  function Verdict(check: Option<seq<Row> -> bool>, expected: Option<seq<Row>>, rows: seq<Row>): Option<bool> {
    if check.Some? then Some(check.value(rows))
    else if expected.Some? then Some(CheckResult(rows, expected.value))
    else None
  }

  lemma VerdictPrecedence(check: Option<seq<Row> -> bool>, expected: Option<seq<Row>>, other: Option<seq<Row>>, rows: seq<Row>)
    ensures check.Some? ==> Verdict(check, expected, rows) == Verdict(check, other, rows)
    ensures check.None? ==> (Verdict(check, expected, rows).Some? <==> expected.Some?)
    ensures Verdict(None, Some(rows), rows) == Some(true)
  {
    CheckResultMeaning(rows, rows);
  }

  class QueryBlock {
    var code: string
    var output: seq<Row>
    var columns: seq<string>
    var error: string
    var isRunning: bool
    var isCorrect: Option<bool>
    /** Both the engine and the database are set. */
    var ready: bool

    constructor(initialCode: string)
      ensures code == initialCode && output == [] && columns == [] && error == ""
      ensures !isRunning && isCorrect == None && !ready
    {
      code := initialCode;
      output := [];
      columns := [];
      error := "";
      isRunning := false;
      isCorrect := None;
      ready := false;
    }

    /** The engine has loaded and a database is attached. */
    method Attach()
      modifies this
      ensures ready
      ensures code == old(code) && output == old(output) && columns == old(columns)
      ensures error == old(error) && isRunning == old(isRunning) && isCorrect == old(isCorrect)
    {
      ready := true;
    }

    /** `handleRun`; returns what `onResult` receives, if it is called. */
    method Run(exec: string -> Exec, check: Option<seq<Row> -> bool>, expected: Option<seq<Row>>)
        returns (reported: Option<seq<Row>>)
      modifies this
      ensures code == old(code) && ready == old(ready)
      ensures !ready ==>
                error == NotInitialized && reported == None
                && output == old(output) && columns == old(columns)
                && isCorrect == old(isCorrect) && isRunning == old(isRunning)
      ensures ready ==> !isRunning
      ensures ready && exec(Trim(code)).Threw? ==>
                var m := exec(Trim(code)).message;
                error == (if m == "" then SqlErrorFallback else m)
                && isCorrect == Some(false) && output == [] && columns == [] && reported == None
      ensures ready && exec(Trim(code)).Returned? && |exec(Trim(code)).sets| == 0 ==>
                error == "" && isCorrect == None && output == [] && columns == [] && reported == Some([])
      ensures ready && exec(Trim(code)).Returned? && |exec(Trim(code)).sets| > 0 ==>
                var first := exec(Trim(code)).sets[0];
                error == "" && columns == first.columns && output == RowsOf(first.columns, first.values)
                && reported == Some(output) && isCorrect == Verdict(check, expected, output)
    {
      reported := None;
      if !ready {
        error := NotInitialized;
        return;
      }
      isRunning := true;
      error := "";
      output := [];
      columns := [];
      isCorrect := None;
      var result := exec(Trim(code));
      if result.Threw? {
        error := if result.message == "" then SqlErrorFallback else result.message;
        isCorrect := Some(false);
      } else if |result.sets| == 0 {
        output := [];
        columns := [];
        reported := Some([]);
      } else {
        var first := result.sets[0];
        var rows := BuildRows(first.columns, first.values);
        columns := first.columns;
        output := rows;
        reported := Some(rows);
        if check.Some? {
          isCorrect := Some(check.value(rows));
        } else if expected.Some? {
          isCorrect := Some(CheckResult(rows, expected.value));
        }
      }
      isRunning := false;
    }

    /** `handleReset`. */
    method Reset(initialCode: string)
      modifies this
      ensures code == initialCode && output == [] && columns == [] && error == "" && isCorrect == None
      ensures isRunning == old(isRunning) && ready == old(ready)
    {
      code := initialCode;
      output := [];
      columns := [];
      error := "";
      isCorrect := None;
    }

    /** The effect on a new `initialCode`: a reset that also stops the run. */
    method InitialCodeChanged(initialCode: string)
      modifies this
      ensures code == initialCode && output == [] && columns == [] && error == "" && isCorrect == None
      ensures !isRunning && ready == old(ready)
    {
      Reset(initialCode);
      isRunning := false;
    }
  }
}
