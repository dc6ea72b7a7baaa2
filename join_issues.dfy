/**
 * `JOIN_ISSUES` of src/customFunctions/joinIssues.ts: a left join of a GitHub
 * issue table with a ZenHub board table on the issue number.
 *
 * Columns of both tables are found by header name. The board is indexed by
 * `String(issue_number)` (a later row with the same number replaces an earlier
 * one), and every issue row becomes one output row whose columns depend on
 * which story-point prefixes are given and whether the board has a
 * `parent_epics` column.
 */
module JoinIssues {
  import opened Wrappers
  import opened JsStrings
  import opened Scalars
  import opened LabelPoints

  /** A cell of the joined table: an input value passed through, or an extracted point. */
  datatype Cell = Value(v: Scalar) | Estimate(p: Point)

  type OutRow = seq<Cell>

  type OutTable = seq<OutRow>

  /** The errors `JOIN_ISSUES` throws, in the order it checks for them. */
  datatype JoinError =
    | NoGithubIssues
    | NoZenhubIssues
    | InsufficientGithubColumns(missing: seq<string>)
    | InsufficientZenhubColumns(missing: seq<string>)

  /** The thrown error's message. */
  function Message(e: JoinError): string
  {
    match e
    case NoGithubIssues => "no github issues"
    case NoZenhubIssues => "no zenhub issues"
    case InsufficientGithubColumns(m) => "insufficient github issue column(s): " + JoinWith(m, ',')
    case InsufficientZenhubColumns(m) => "insufficient zenhub issue column(s): " + JoinWith(m, ',')
  }

  /** Columns the issue table must have, in the order they are checked (the misspelling is the source's). */
  const GithubRequired: seq<string> := ["number", "title", "state", "asignnees", "labels"]

  /** Columns the board table must have, in the order they are checked. */
  const ZenhubRequired: seq<string> := ["pipeline_name", "is_epic", "issue_number", "estimate_value", "position"]

  /** `header.indexOf(v)`: the first position holding a cell strictly equal to `v`, or -1. */
  function FirstIndex(header: Row, v: Scalar): (r: int)
    ensures -1 <= r < |header|
    ensures r == -1 <==> v !in header
    ensures r >= 0 ==> header[r] == v && forall i :: 0 <= i < r ==> header[i] != v
  {
    FirstIndexFrom(header, v, 0)
  }

  function FirstIndexFrom(header: Row, v: Scalar, i: nat): (r: int)
    requires i <= |header|
    ensures -1 <= r < |header|
    ensures r == -1 <==> v !in header[i..]
    ensures r >= 0 ==> i <= r && header[r] == v && forall j :: i <= j < r ==> header[j] != v
    decreases |header| - i
  {
    if i == |header| then -1
    else if header[i] == v then i
    else
      var r := FirstIndexFrom(header, v, i + 1);
      assert header[i..] == [header[i]] + header[i + 1..];
      r
  }

  /**
   * The required column names that the header lacks, all of them, in the order
   * of `required`.
   */
  function MissingColumns(header: Row, required: seq<string>): (m: seq<string>)
    ensures forall c :: c in m <==> c in required && Str(c) !in header
    ensures |m| <= |required|
    ensures m == [] <==> forall i :: 0 <= i < |required| ==> Str(required[i]) in header
  {
    if required == [] then []
    else
      (if Str(required[0]) in header then [] else [required[0]]) + MissingColumns(header, required[1..])
  }

  /** Positions of the issue table's columns. */
  datatype GithubColumns = GithubColumns(number: nat, title: nat, state: nat, assignees: nat, labels: nat)

  /** Positions of the board table's columns; `parent_epics` is optional. */
  datatype ZenhubColumns = ZenhubColumns(
    pipelineName: nat, isEpic: nat, issueNumber: nat, estimateValue: nat, position: nat,
    parentEpics: Option<nat>)

  /** `c` is the first position of the column named `name`. */
  predicate ColumnAt(header: Row, name: string, c: nat)
  {
    c < |header| && header[c] == Str(name) && forall i :: 0 <= i < c ==> header[i] != Str(name)
  }

  function ResolveGithub(header: Row): (r: Result<GithubColumns, seq<string>>)
    ensures r.Failure? <==> MissingColumns(header, GithubRequired) != []
    ensures r.Failure? ==> r.error == MissingColumns(header, GithubRequired)
    ensures r.Success? ==>
              && ColumnAt(header, "number", r.value.number) && ColumnAt(header, "title", r.value.title)
              && ColumnAt(header, "state", r.value.state) && ColumnAt(header, "asignnees", r.value.assignees)
              && ColumnAt(header, "labels", r.value.labels)
  {
    var missing := MissingColumns(header, GithubRequired);
    if missing != [] then Failure(missing)
    else
      assert Str(GithubRequired[0]) in header && Str(GithubRequired[1]) in header;
      assert Str(GithubRequired[2]) in header && Str(GithubRequired[3]) in header;
      assert Str(GithubRequired[4]) in header;
      Success(GithubColumns(
        FirstIndex(header, Str("number")), FirstIndex(header, Str("title")),
        FirstIndex(header, Str("state")), FirstIndex(header, Str("asignnees")),
        FirstIndex(header, Str("labels"))))
  }

  function ResolveZenhub(header: Row): (r: Result<ZenhubColumns, seq<string>>)
    ensures r.Failure? <==> MissingColumns(header, ZenhubRequired) != []
    ensures r.Failure? ==> r.error == MissingColumns(header, ZenhubRequired)
    ensures r.Success? ==>
              && ColumnAt(header, "pipeline_name", r.value.pipelineName)
              && ColumnAt(header, "is_epic", r.value.isEpic)
              && ColumnAt(header, "issue_number", r.value.issueNumber)
              && ColumnAt(header, "estimate_value", r.value.estimateValue)
              && ColumnAt(header, "position", r.value.position)
              && (r.value.parentEpics.None? <==> Str("parent_epics") !in header)
              && (r.value.parentEpics.Some? ==> ColumnAt(header, "parent_epics", r.value.parentEpics.value))
  {
    var missing := MissingColumns(header, ZenhubRequired);
    if missing != [] then Failure(missing)
    else
      assert Str(ZenhubRequired[0]) in header && Str(ZenhubRequired[1]) in header;
      assert Str(ZenhubRequired[2]) in header && Str(ZenhubRequired[3]) in header;
      assert Str(ZenhubRequired[4]) in header;
      var parent := FirstIndex(header, Str("parent_epics"));
      Success(ZenhubColumns(
        FirstIndex(header, Str("pipeline_name")), FirstIndex(header, Str("is_epic")),
        FirstIndex(header, Str("issue_number")), FirstIndex(header, Str("estimate_value")),
        FirstIndex(header, Str("position")),
        if parent >= 0 then Some(parent) else None))
  }

  /** JavaScript truthiness of an optional prefix argument: given and not empty. */
  predicate Given(prefix: Option<string>)
  {
    prefix.Some? && prefix.value != ""
  }

  /** The columns of the joined table. */
  datatype Column =
    | PipelineName | Position | IsEpic | Number | Title | State | Assignees | Labels | MostLikelySp
    | PessimisticSp | OptimisticSp | ParentEpics

  function ColumnName(c: Column): string
  {
    match c
    case PipelineName => "pipeline_name"
    case Position => "position"
    case IsEpic => "is_epic"
    case Number => "number"
    case Title => "title"
    case State => "state"
    case Assignees => "asignees"
    case Labels => "labels"
    case MostLikelySp => "most_likely_sp"
    case PessimisticSp => "pessimistic_sp"
    case OptimisticSp => "optimistic_sp"
    case ParentEpics => "parent_epics"
  }

  /** Nine fixed columns, then each optional one when it is switched on, in a fixed order. */
  function OutputColumns(psp: bool, osp: bool, parentEpics: bool): seq<Column>
  {
    [PipelineName, Position, IsEpic, Number, Title, State, Assignees, Labels, MostLikelySp]
    + (if psp then [PessimisticSp] else [])
    + (if osp then [OptimisticSp] else [])
    + (if parentEpics then [ParentEpics] else [])
  }

  /** Everything one output row carries about one issue. */
  datatype JoinedIssue = JoinedIssue(
    pipelineName: Scalar, position: Scalar, isEpic: Scalar, number: Scalar, title: Scalar,
    state: Scalar, assignees: Scalar, labels: string, mostLikelySp: Scalar,
    pessimisticSp: Cell, optimisticSp: Cell, parentEpics: Scalar)

  function Field(j: JoinedIssue, c: Column): Cell
  {
    match c
    case PipelineName => Value(j.pipelineName)
    case Position => Value(j.position)
    case IsEpic => Value(j.isEpic)
    case Number => Value(j.number)
    case Title => Value(j.title)
    case State => Value(j.state)
    case Assignees => Value(j.assignees)
    case Labels => Value(Str(j.labels))
    case MostLikelySp => Value(j.mostLikelySp)
    case PessimisticSp => j.pessimisticSp
    case OptimisticSp => j.optimisticSp
    case ParentEpics => Value(j.parentEpics)
  }

  function HeaderRow(cols: seq<Column>): OutRow
  {
    seq(|cols|, i requires 0 <= i < |cols| => Value(Str(ColumnName(cols[i]))))
  }

  function Render(j: JoinedIssue, cols: seq<Column>): OutRow
  {
    seq(|cols|, i requires 0 <= i < |cols| => Field(j, cols[i]))
  }

  /** A rendered row lists the fixed fields, then each switched-on optional field. */
  lemma RenderLayout(j: JoinedIssue, psp: bool, osp: bool, parentEpics: bool)
    ensures Render(j, OutputColumns(psp, osp, parentEpics))
         == [Value(j.pipelineName), Value(j.position), Value(j.isEpic), Value(j.number), Value(j.title),
             Value(j.state), Value(j.assignees), Value(Str(j.labels)), Value(j.mostLikelySp)]
            + (if psp then [j.pessimisticSp] else [])
            + (if osp then [j.optimisticSp] else [])
            + (if parentEpics then [Value(j.parentEpics)] else [])
  {
  }

  /** The header lists the fixed names, then each switched-on optional name. */
  lemma HeaderLayout(psp: bool, osp: bool, parentEpics: bool)
    ensures HeaderRow(OutputColumns(psp, osp, parentEpics))
         == [Value(Str("pipeline_name")), Value(Str("position")), Value(Str("is_epic")), Value(Str("number")),
             Value(Str("title")), Value(Str("state")), Value(Str("asignees")), Value(Str("labels")),
             Value(Str("most_likely_sp"))]
            + (if psp then [Value(Str("pessimistic_sp"))] else [])
            + (if osp then [Value(Str("optimistic_sp"))] else [])
            + (if parentEpics then [Value(Str("parent_epics"))] else [])
  {
  }

  /** The dictionary key of a board data row: `String(issue[issueNumberColumn])`. */
  function BoardKey(row: Row, col: nat): string
  {
    ToString(Get(row, col))
  }

  /** The last board data row whose key is `key`, if any. */
  function LastMatch(rows: Table, col: nat, key: string): (r: Option<nat>)
    ensures r.None? <==> forall i :: 0 <= i < |rows| ==> BoardKey(rows[i], col) != key
    ensures r.Some? ==> && r.value < |rows| && BoardKey(rows[r.value], col) == key
                        && forall i :: r.value < i < |rows| ==> BoardKey(rows[i], col) != key
    decreases |rows|
  {
    if |rows| == 0 then None
    else if BoardKey(rows[|rows| - 1], col) == key then Some(|rows| - 1)
    else LastMatch(rows[..|rows| - 1], col, key)
  }

  /**
   * One issue row joined with the board's data rows: the labels lose the
   * pessimistic token first and then the optimistic one, and the board fields
   * come from the last board row with the same issue number, or are blank.
   */
  function JoinIssue(issue: Row, board: Table, gc: GithubColumns, zc: ZenhubColumns,
                     psp: Option<string>, osp: Option<string>): JoinedIssue
  {
    var labels0 := ToString(Get(issue, gc.labels));
    var labels1 := if Given(psp) then ExtractPoint(labels0, psp.value).newLabels else labels0;
    var labels2 := if Given(osp) then ExtractPoint(labels1, osp.value).newLabels else labels1;
    var number := Get(issue, gc.number);
    var hit := LastMatch(board, zc.issueNumber, ToString(number));
    JoinedIssue(
      if hit.Some? then Get(board[hit.value], zc.pipelineName) else Str(""),
      if hit.Some? then Get(board[hit.value], zc.position) else Missing,
      if hit.Some? then Get(board[hit.value], zc.isEpic) else Missing,
      number,
      Get(issue, gc.title),
      Get(issue, gc.state),
      Get(issue, gc.assignees),
      labels2,
      if hit.Some? then Get(board[hit.value], zc.estimateValue) else Missing,
      if Given(psp) then Estimate(ExtractPoint(labels0, psp.value).point) else Value(Missing),
      if Given(osp) then Estimate(ExtractPoint(labels1, osp.value).point) else Value(Missing),
      if hit.Some? && zc.parentEpics.Some? then Get(board[hit.value], zc.parentEpics.value) else Str(""))
  }

  /**
   * The issue's own number, title, state and assignees pass through. The
   * pessimistic point is extracted from `String(labels)`, the optimistic one from
   * the labels the pessimistic pass left, and the labels column holds what both
   * passes left; a point cell is an estimate exactly when its prefix is given.
   * The labels never grow.
   */
  lemma JoinIssueOwnFields(issue: Row, board: Table, gc: GithubColumns, zc: ZenhubColumns,
                           psp: Option<string>, osp: Option<string>)
    ensures var j := JoinIssue(issue, board, gc, zc, psp, osp);
            var l0 := ToString(Get(issue, gc.labels));
            var l1 := if Given(psp) then ExtractPoint(l0, psp.value).newLabels else l0;
            && j.number == Get(issue, gc.number) && j.title == Get(issue, gc.title)
            && j.state == Get(issue, gc.state) && j.assignees == Get(issue, gc.assignees)
            && (j.pessimisticSp.Estimate? <==> Given(psp))
            && (j.optimisticSp.Estimate? <==> Given(osp))
            && (Given(psp) ==> j.pessimisticSp == Estimate(ExtractPoint(l0, psp.value).point))
            && (Given(osp) ==> j.optimisticSp == Estimate(ExtractPoint(l1, osp.value).point))
            && j.labels == (if Given(osp) then ExtractPoint(l1, osp.value).newLabels else l1)
            && (!Given(psp) && !Given(osp) ==> j.labels == l0)
            && |j.labels| <= |l0|
  {
    var labels0 := ToString(Get(issue, gc.labels));
    ExtractPointShrinks(labels0, if Given(psp) then psp.value else "");
    var labels1 := if Given(psp) then ExtractPoint(labels0, psp.value).newLabels else labels0;
    ExtractPointShrinks(labels1, if Given(osp) then osp.value else "");
  }

  /** The joined table, or the first error the source would throw. */
  function Joined(githubIssues: Table, zenhubIssues: Table, psp: Option<string>, osp: Option<string>)
    : (r: Result<OutTable, JoinError>)
    ensures r.Success? ==> |r.value| == |githubIssues|
  {
    if |githubIssues| < 2 then Failure(NoGithubIssues)
    else if |zenhubIssues| < 2 then Failure(NoZenhubIssues)
    else match ResolveGithub(githubIssues[0])
      case Failure(m) => Failure(InsufficientGithubColumns(m))
      case Success(gc) =>
        match ResolveZenhub(zenhubIssues[0])
        case Failure(m) => Failure(InsufficientZenhubColumns(m))
        case Success(zc) =>
          Success([HeaderRow(OutputColumns(Given(psp), Given(osp), zc.parentEpics.Some?))]
                  + JoinedRows(githubIssues[1..], zenhubIssues[1..], gc, zc, psp, osp))
  }

  /**
   * The errors in the order they are checked: too few issue rows, too few
   * board rows, then every missing issue column, then every missing board column.
   */
  lemma JoinedErrors(githubIssues: Table, zenhubIssues: Table, psp: Option<string>, osp: Option<string>)
    ensures var r := Joined(githubIssues, zenhubIssues, psp, osp);
            && (r == Failure(NoGithubIssues) <==> |githubIssues| < 2)
            && (r == Failure(NoZenhubIssues) <==> |githubIssues| >= 2 && |zenhubIssues| < 2)
            && (r.Failure? && r.error.InsufficientGithubColumns?
                <==> |githubIssues| >= 2 && |zenhubIssues| >= 2 && MissingColumns(githubIssues[0], GithubRequired) != [])
            && (r.Failure? && r.error.InsufficientZenhubColumns?
                <==> && |githubIssues| >= 2 && |zenhubIssues| >= 2
                     && MissingColumns(githubIssues[0], GithubRequired) == []
                     && MissingColumns(zenhubIssues[0], ZenhubRequired) != [])
  {
  }

  /** A rejected table is reported with all of its missing columns. */
  lemma JoinedMissing(githubIssues: Table, zenhubIssues: Table, psp: Option<string>, osp: Option<string>)
    ensures var r := Joined(githubIssues, zenhubIssues, psp, osp);
            && (r.Failure? && r.error.InsufficientGithubColumns? ==>
                  r.error.missing == MissingColumns(githubIssues[0], GithubRequired))
            && (r.Failure? && r.error.InsufficientZenhubColumns? ==>
                  r.error.missing == MissingColumns(zenhubIssues[0], ZenhubRequired))
  {
  }

  /** One rendered output row per issue data row, in order. */
  function JoinedRows(issues: Table, board: Table, gc: GithubColumns, zc: ZenhubColumns,
                      psp: Option<string>, osp: Option<string>): (rows: seq<OutRow>)
    ensures |rows| == |issues|
    ensures forall i :: 0 <= i < |rows| ==> |rows[i]| == |OutputColumns(Given(psp), Given(osp), zc.parentEpics.Some?)|
  {
    var cols := OutputColumns(Given(psp), Given(osp), zc.parentEpics.Some?);
    seq(|issues|, i requires 0 <= i < |issues| => Render(JoinIssue(issues[i], board, gc, zc, psp, osp), cols))
  }

  /**
   * A pessimistic prefix passed as `""` is falsy in JavaScript, so it acts
   * exactly as an omitted one: same header, same rows, same errors.
   */
  lemma EmptyPspIsAbsent(githubIssues: Table, zenhubIssues: Table, osp: Option<string>)
    ensures !Given(Some(""))
    ensures Joined(githubIssues, zenhubIssues, Some(""), osp) == Joined(githubIssues, zenhubIssues, None, osp)
  {
    if |githubIssues| >= 2 && |zenhubIssues| >= 2
       && ResolveGithub(githubIssues[0]).Success? && ResolveZenhub(zenhubIssues[0]).Success?
    {
      var gc, zc := ResolveGithub(githubIssues[0]).value, ResolveZenhub(zenhubIssues[0]).value;
      EmptyPrefixRows(githubIssues[1..], zenhubIssues[1..], gc, zc, None, osp);
    }
  }

  /** The same for an optimistic prefix passed as `""`. */
  lemma EmptyOspIsAbsent(githubIssues: Table, zenhubIssues: Table, psp: Option<string>)
    ensures Joined(githubIssues, zenhubIssues, psp, Some("")) == Joined(githubIssues, zenhubIssues, psp, None)
  {
    if |githubIssues| >= 2 && |zenhubIssues| >= 2
       && ResolveGithub(githubIssues[0]).Success? && ResolveZenhub(zenhubIssues[0]).Success?
    {
      var gc, zc := ResolveGithub(githubIssues[0]).value, ResolveZenhub(zenhubIssues[0]).value;
      EmptyPrefixRows(githubIssues[1..], zenhubIssues[1..], gc, zc, psp, None);
    }
  }

  /** The body rows do not tell an empty prefix from an omitted one. */
  lemma EmptyPrefixRows(issues: Table, board: Table, gc: GithubColumns, zc: ZenhubColumns,
                        psp: Option<string>, osp: Option<string>)
    ensures JoinedRows(issues, board, gc, zc, Some(""), osp) == JoinedRows(issues, board, gc, zc, None, osp)
    ensures JoinedRows(issues, board, gc, zc, psp, Some("")) == JoinedRows(issues, board, gc, zc, psp, None)
  {
    forall i | 0 <= i < |issues|
      ensures JoinIssue(issues[i], board, gc, zc, Some(""), osp) == JoinIssue(issues[i], board, gc, zc, None, osp)
      ensures JoinIssue(issues[i], board, gc, zc, psp, Some("")) == JoinIssue(issues[i], board, gc, zc, psp, None)
    {
    }
  }

  /** Data row `i` of the issue table becomes body row `i - 1`. */
  lemma JoinedRowAt(githubIssues: Table, board: Table, gc: GithubColumns, zc: ZenhubColumns,
                    psp: Option<string>, osp: Option<string>, i: nat)
    requires 1 <= i < |githubIssues|
    ensures JoinedRows(githubIssues[1..], board, gc, zc, psp, osp)[i - 1]
         == Render(JoinIssue(githubIssues[i], board, gc, zc, psp, osp), OutputColumns(Given(psp), Given(osp), zc.parentEpics.Some?))
  {
    assert githubIssues[1..][i - 1] == githubIssues[i];
  }

  /** One more issue adds its rendered row at the end. */
  lemma JoinedRowsSnoc(issues: Table, issue: Row, board: Table, gc: GithubColumns, zc: ZenhubColumns,
                       psp: Option<string>, osp: Option<string>)
    ensures JoinedRows(issues + [issue], board, gc, zc, psp, osp)
         == JoinedRows(issues, board, gc, zc, psp, osp)
            + [Render(JoinIssue(issue, board, gc, zc, psp, osp), OutputColumns(Given(psp), Given(osp), zc.parentEpics.Some?))]
  {
  }

  /** One more board row becomes the last match of its own key and changes no other key. */
  lemma LastMatchStep(rows: Table, col: nat, i: nat)
    requires i < |rows|
    ensures forall key :: LastMatch(rows[..i + 1], col, key)
                          == if BoardKey(rows[i], col) == key then Some(i) else LastMatch(rows[..i], col, key)
  {
    var prefix := rows[..i + 1];
    assert prefix[..i] == rows[..i] && prefix[i] == rows[i];
    forall key
      ensures LastMatch(prefix, col, key)
              == if BoardKey(rows[i], col) == key then Some(i) else LastMatch(rows[..i], col, key)
    {
    }
  }

  /** The `forEach` that fills `issueNumberMap`: key -> position among the board's data rows. */
  method BuildIssueNumberIndex(rows: Table, col: nat) returns (index: map<string, nat>)
    ensures forall key :: key in index <==> LastMatch(rows, col, key).Some?
    ensures forall key :: key in index ==> index[key] == LastMatch(rows, col, key).value
  {
    index := map[];
    var i := 0;
    while i < |rows|
      invariant 0 <= i <= |rows|
      invariant forall key :: key in index <==> LastMatch(rows[..i], col, key).Some?
      invariant forall key :: key in index ==> index[key] == LastMatch(rows[..i], col, key).value
    {
      var num := BoardKey(rows[i], col);
      index := index[num := i];
      LastMatchStep(rows, col, i);
      i := i + 1;
    }
    assert rows[..|rows|] == rows;
  }

  /** The body of the per-row `map`: labels surgery, board lookup, row assembly. */
  method AssembleRow(githubIssue: Row, zenhubIssues: Table, issueNumberMap: map<string, nat>,
                     gc: GithubColumns, zc: ZenhubColumns,
                     pspLabelPrefix: Option<string>, ospLabelPrefix: Option<string>)
    returns (row: OutRow)
    requires |zenhubIssues| >= 1
    requires forall key :: key in issueNumberMap <==> LastMatch(zenhubIssues[1..], zc.issueNumber, key).Some?
    requires forall key :: key in issueNumberMap ==>
               issueNumberMap[key] == LastMatch(zenhubIssues[1..], zc.issueNumber, key).value
    ensures row == Render(JoinIssue(githubIssue, zenhubIssues[1..], gc, zc, pspLabelPrefix, ospLabelPrefix),
                          OutputColumns(Given(pspLabelPrefix), Given(ospLabelPrefix), zc.parentEpics.Some?))
  {
    var labels := ToString(Get(githubIssue, gc.labels));

    var psp := Value(Missing);
    if Given(pspLabelPrefix) {
      var e := ExtractPoint(labels, pspLabelPrefix.value);
      psp := Estimate(e.point);
      labels := e.newLabels;
    }

    var osp := Value(Missing);
    if Given(ospLabelPrefix) {
      var e := ExtractPoint(labels, ospLabelPrefix.value);
      osp := Estimate(e.point);
      labels := e.newLabels;
    }

    var issueNumber := Get(githubIssue, gc.number);
    var key := ToString(issueNumber);
    var pipelineName := Str("");
    var position := Missing;
    var isEpic := Missing;
    var mostLikelySp := Missing;
    var parentEpics := Str("");
    if key in issueNumberMap {
      var zenhubIssue := zenhubIssues[issueNumberMap[key] + 1];
      pipelineName := Get(zenhubIssue, zc.pipelineName);
      position := Get(zenhubIssue, zc.position);
      isEpic := Get(zenhubIssue, zc.isEpic);
      mostLikelySp := Get(zenhubIssue, zc.estimateValue);
      if zc.parentEpics.Some? {
        parentEpics := Get(zenhubIssue, zc.parentEpics.value);
      }
    }

    row := [
      Value(pipelineName), Value(position), Value(isEpic), Value(issueNumber),
      Value(Get(githubIssue, gc.title)), Value(Get(githubIssue, gc.state)),
      Value(Get(githubIssue, gc.assignees)), Value(Str(labels)), Value(mostLikelySp)
    ];
    ghost var fixed := row;
    if Given(pspLabelPrefix) { row := row + [psp]; }
    ghost var withPsp := row;
    if Given(ospLabelPrefix) { row := row + [osp]; }
    ghost var withOsp := row;
    if zc.parentEpics.Some? { row := row + [Value(parentEpics)]; }

    ghost var j := JoinIssue(githubIssue, zenhubIssues[1..], gc, zc, pspLabelPrefix, ospLabelPrefix);
    assert key in issueNumberMap ==> zenhubIssues[issueNumberMap[key] + 1] == zenhubIssues[1..][issueNumberMap[key]];
    assert j == JoinedIssue(pipelineName, position, isEpic, issueNumber, Get(githubIssue, gc.title),
                            Get(githubIssue, gc.state), Get(githubIssue, gc.assignees), labels,
                            mostLikelySp, psp, osp, parentEpics);
    assert withPsp == fixed + (if Given(pspLabelPrefix) then [psp] else []);
    assert withOsp == withPsp + (if Given(ospLabelPrefix) then [osp] else []);
    assert row == withOsp + (if zc.parentEpics.Some? then [Value(parentEpics)] else []);
    RenderLayout(j, Given(pspLabelPrefix), Given(ospLabelPrefix), zc.parentEpics.Some?);
  }

  /** The missing-column entry contributed by one required name. */
  function MissingOne(header: Row, c: string): seq<string>
  {
    if Str(c) in header then [] else [c]
  }

  /** Unfolds `MissingColumns` over a five-name list, in the order the names are checked. */
  lemma MissingOfFive(header: Row, a: string, b: string, c: string, d: string, e: string)
    ensures MissingColumns(header, [a, b, c, d, e])
         == MissingOne(header, a) + MissingOne(header, b) + MissingOne(header, c)
            + MissingOne(header, d) + MissingOne(header, e)
  {
    Regroup(MissingOne(header, a), MissingOne(header, b), MissingOne(header, c),
            MissingOne(header, d), MissingOne(header, e));
    MissingOfFiveNested(header, a, b, c, d, e);
  }

  lemma MissingOfFiveNested(header: Row, a: string, b: string, c: string, d: string, e: string)
    ensures MissingColumns(header, [a, b, c, d, e])
         == MissingOne(header, a) + (MissingOne(header, b) + (MissingOne(header, c)
            + (MissingOne(header, d) + MissingOne(header, e))))
  {
    assert [a, b, c, d, e][1..] == [b, c, d, e];
    assert [b, c, d, e][1..] == [c, d, e];
    assert [c, d, e][1..] == [d, e];
    assert [d, e][1..] == [e];
    assert [e][1..] == [];
    var m5 := MissingColumns(header, [e]);
    assert m5 == MissingOne(header, e);
    var m4 := MissingColumns(header, [d, e]);
    assert m4 == MissingOne(header, d) + m5;
    var m3 := MissingColumns(header, [c, d, e]);
    assert m3 == MissingOne(header, c) + m4;
    var m2 := MissingColumns(header, [b, c, d, e]);
    assert m2 == MissingOne(header, b) + m3;
    assert MissingColumns(header, [a, b, c, d, e]) == MissingOne(header, a) + m2;
  }

  /** One `if (index < 0) push(name)` step appends the name's missing-column entry. */
  lemma MissingPushed(header: Row, acc: seq<string>, name: string, index: int)
    requires index == FirstIndex(header, Str(name))
    ensures (if index < 0 then acc + [name] else acc) == acc + MissingOne(header, name)
  {
    if index >= 0 {
      assert acc + [] == acc;
    }
  }

  lemma Regroup(a: seq<string>, b: seq<string>, c: seq<string>, d: seq<string>, e: seq<string>)
    ensures a + b + c + d + e == a + (b + (c + (d + e)))
  {
  }

  /** With no column missing, the looked-up positions are the resolved columns. */
  lemma GithubResolved(header: Row, number: int, title: int, state: int, assignees: int, labels: int)
    requires MissingColumns(header, GithubRequired) == []
    requires number == FirstIndex(header, Str("number")) && title == FirstIndex(header, Str("title"))
    requires state == FirstIndex(header, Str("state")) && assignees == FirstIndex(header, Str("asignnees"))
    requires labels == FirstIndex(header, Str("labels"))
    ensures number >= 0 && title >= 0 && state >= 0 && assignees >= 0 && labels >= 0
    ensures ResolveGithub(header) == Success(GithubColumns(number, title, state, assignees, labels))
  {
    assert Str(GithubRequired[0]) in header && Str(GithubRequired[1]) in header;
    assert Str(GithubRequired[2]) in header && Str(GithubRequired[3]) in header;
    assert Str(GithubRequired[4]) in header;
  }

  /** With no column missing, the looked-up positions are the resolved columns. */
  lemma ZenhubResolved(header: Row, pipelineName: int, isEpic: int, issueNumber: int, estimateValue: int,
                       position: int, parentEpics: int)
    requires MissingColumns(header, ZenhubRequired) == []
    requires pipelineName == FirstIndex(header, Str("pipeline_name")) && isEpic == FirstIndex(header, Str("is_epic"))
    requires issueNumber == FirstIndex(header, Str("issue_number"))
    requires estimateValue == FirstIndex(header, Str("estimate_value"))
    requires position == FirstIndex(header, Str("position")) && parentEpics == FirstIndex(header, Str("parent_epics"))
    ensures pipelineName >= 0 && isEpic >= 0 && issueNumber >= 0 && estimateValue >= 0 && position >= 0
    ensures ResolveZenhub(header) == Success(ZenhubColumns(pipelineName, isEpic, issueNumber, estimateValue, position,
                                                             if parentEpics >= 0 then Some(parentEpics) else None))
  {
    assert Str(ZenhubRequired[0]) in header && Str(ZenhubRequired[1]) in header;
    assert Str(ZenhubRequired[2]) in header && Str(ZenhubRequired[3]) in header;
    assert Str(ZenhubRequired[4]) in header;
  }

  /** Column lookup of the issue table, with the list of every missing column. */
  method ResolveGithubColumns(githubIssuesHeader: Row) returns (r: Result<GithubColumns, seq<string>>)
    ensures r == ResolveGithub(githubIssuesHeader)
  {
    var githubNumberIndex := FirstIndex(githubIssuesHeader, Str("number"));
    var githubTitleIndex := FirstIndex(githubIssuesHeader, Str("title"));
    var githubStateIndex := FirstIndex(githubIssuesHeader, Str("state"));
    var githubAsignneesIndex := FirstIndex(githubIssuesHeader, Str("asignnees"));
    var githubLabelsIndex := FirstIndex(githubIssuesHeader, Str("labels"));

    var insufficientGithubColumns: seq<string> := [];
    ghost var m0 := insufficientGithubColumns;
    if githubNumberIndex < 0 { insufficientGithubColumns := insufficientGithubColumns + ["number"]; }
    MissingPushed(githubIssuesHeader, m0, "number", githubNumberIndex);
    ghost var m1 := insufficientGithubColumns;
    assert m1 == MissingOne(githubIssuesHeader, "number");
    if githubTitleIndex < 0 { insufficientGithubColumns := insufficientGithubColumns + ["title"]; }
    MissingPushed(githubIssuesHeader, m1, "title", githubTitleIndex);
    ghost var m2 := insufficientGithubColumns;
    if githubStateIndex < 0 { insufficientGithubColumns := insufficientGithubColumns + ["state"]; }
    MissingPushed(githubIssuesHeader, m2, "state", githubStateIndex);
    ghost var m3 := insufficientGithubColumns;
    if githubAsignneesIndex < 0 { insufficientGithubColumns := insufficientGithubColumns + ["asignnees"]; }
    MissingPushed(githubIssuesHeader, m3, "asignnees", githubAsignneesIndex);
    ghost var m4 := insufficientGithubColumns;
    if githubLabelsIndex < 0 { insufficientGithubColumns := insufficientGithubColumns + ["labels"]; }
    MissingPushed(githubIssuesHeader, m4, "labels", githubLabelsIndex);

    MissingOfFive(githubIssuesHeader, "number", "title", "state", "asignnees", "labels");
    assert insufficientGithubColumns == MissingColumns(githubIssuesHeader, GithubRequired);
    if |insufficientGithubColumns| > 0 {
      return Failure(insufficientGithubColumns);
    }
    GithubResolved(githubIssuesHeader, githubNumberIndex, githubTitleIndex, githubStateIndex,
                   githubAsignneesIndex, githubLabelsIndex);
    r := Success(GithubColumns(githubNumberIndex, githubTitleIndex, githubStateIndex,
                               githubAsignneesIndex, githubLabelsIndex));
  }

  /** Column lookup of the board table, with the list of every missing column. */
  method ResolveZenhubColumns(zenhubIssuesHeader: Row) returns (r: Result<ZenhubColumns, seq<string>>)
    ensures r == ResolveZenhub(zenhubIssuesHeader)
  {
    var zenhubPipelineNameIndex := FirstIndex(zenhubIssuesHeader, Str("pipeline_name"));
    var zenhubIsEpicIndex := FirstIndex(zenhubIssuesHeader, Str("is_epic"));
    var zenhubIssueNumberIndex := FirstIndex(zenhubIssuesHeader, Str("issue_number"));
    var zenhubEstimateValueIndex := FirstIndex(zenhubIssuesHeader, Str("estimate_value"));
    var zenhubPositionIndex := FirstIndex(zenhubIssuesHeader, Str("position"));
    var zenhubParentEpicsIndex := FirstIndex(zenhubIssuesHeader, Str("parent_epics"));

    var insufficientZenHubColumns: seq<string> := [];
    ghost var m0 := insufficientZenHubColumns;
    if zenhubPipelineNameIndex < 0 { insufficientZenHubColumns := insufficientZenHubColumns + ["pipeline_name"]; }
    MissingPushed(zenhubIssuesHeader, m0, "pipeline_name", zenhubPipelineNameIndex);
    ghost var m1 := insufficientZenHubColumns;
    assert m1 == MissingOne(zenhubIssuesHeader, "pipeline_name");
    if zenhubIsEpicIndex < 0 { insufficientZenHubColumns := insufficientZenHubColumns + ["is_epic"]; }
    MissingPushed(zenhubIssuesHeader, m1, "is_epic", zenhubIsEpicIndex);
    ghost var m2 := insufficientZenHubColumns;
    if zenhubIssueNumberIndex < 0 { insufficientZenHubColumns := insufficientZenHubColumns + ["issue_number"]; }
    MissingPushed(zenhubIssuesHeader, m2, "issue_number", zenhubIssueNumberIndex);
    ghost var m3 := insufficientZenHubColumns;
    if zenhubEstimateValueIndex < 0 { insufficientZenHubColumns := insufficientZenHubColumns + ["estimate_value"]; }
    MissingPushed(zenhubIssuesHeader, m3, "estimate_value", zenhubEstimateValueIndex);
    ghost var m4 := insufficientZenHubColumns;
    if zenhubPositionIndex < 0 { insufficientZenHubColumns := insufficientZenHubColumns + ["position"]; }
    MissingPushed(zenhubIssuesHeader, m4, "position", zenhubPositionIndex);

    MissingOfFive(zenhubIssuesHeader, "pipeline_name", "is_epic", "issue_number", "estimate_value", "position");
    assert insufficientZenHubColumns == MissingColumns(zenhubIssuesHeader, ZenhubRequired);
    if |insufficientZenHubColumns| > 0 {
      return Failure(insufficientZenHubColumns);
    }
    ZenhubResolved(zenhubIssuesHeader, zenhubPipelineNameIndex, zenhubIsEpicIndex, zenhubIssueNumberIndex,
                   zenhubEstimateValueIndex, zenhubPositionIndex, zenhubParentEpicsIndex);
    r := Success(ZenhubColumns(zenhubPipelineNameIndex, zenhubIsEpicIndex, zenhubIssueNumberIndex,
                               zenhubEstimateValueIndex, zenhubPositionIndex,
                               if zenhubParentEpicsIndex >= 0 then Some(zenhubParentEpicsIndex) else None));
  }

  /** The output header: nine fixed names, then the optional ones that are switched on. */
  method BuildHeader(pspLabelPrefix: Option<string>, ospLabelPrefix: Option<string>, hasParentEpics: bool)
    returns (header: OutRow)
    ensures header == HeaderRow(OutputColumns(Given(pspLabelPrefix), Given(ospLabelPrefix), hasParentEpics))
  {
    header := [
      Value(Str("pipeline_name")), Value(Str("position")), Value(Str("is_epic")), Value(Str("number")),
      Value(Str("title")), Value(Str("state")), Value(Str("asignees")), Value(Str("labels")),
      Value(Str("most_likely_sp"))
    ];
    ghost var fixed := header;
    if Given(pspLabelPrefix) { header := header + [Value(Str("pessimistic_sp"))]; }
    ghost var withPsp := header;
    if Given(ospLabelPrefix) { header := header + [Value(Str("optimistic_sp"))]; }
    ghost var withOsp := header;
    if hasParentEpics { header := header + [Value(Str("parent_epics"))]; }
    assert withPsp == fixed + (if Given(pspLabelPrefix) then [Value(Str("pessimistic_sp"))] else []);
    assert withOsp == withPsp + (if Given(ospLabelPrefix) then [Value(Str("optimistic_sp"))] else []);
    assert header == withOsp + (if hasParentEpics then [Value(Str("parent_epics"))] else []);
    HeaderLayout(Given(pspLabelPrefix), Given(ospLabelPrefix), hasParentEpics);
  }

  /** `githubIssues.slice(1).map(...)`: every issue data row assembled in turn. */
  method AssembleRows(githubIssues: Table, zenhubIssues: Table, issueNumberMap: map<string, nat>,
                      gc: GithubColumns, zc: ZenhubColumns,
                      pspLabelPrefix: Option<string>, ospLabelPrefix: Option<string>)
    returns (bodyRows: seq<OutRow>)
    requires |githubIssues| >= 1 && |zenhubIssues| >= 1
    requires forall key :: key in issueNumberMap <==> LastMatch(zenhubIssues[1..], zc.issueNumber, key).Some?
    requires forall key :: key in issueNumberMap ==>
               issueNumberMap[key] == LastMatch(zenhubIssues[1..], zc.issueNumber, key).value
    ensures bodyRows == JoinedRows(githubIssues[1..], zenhubIssues[1..], gc, zc, pspLabelPrefix, ospLabelPrefix)
  {
    bodyRows := [];
    var i := 1;
    while i < |githubIssues|
      invariant 1 <= i <= |githubIssues|
      invariant bodyRows == JoinedRows(githubIssues[1..i], zenhubIssues[1..], gc, zc, pspLabelPrefix, ospLabelPrefix)
    {
      var row := AssembleRow(githubIssues[i], zenhubIssues, issueNumberMap, gc, zc,
                             pspLabelPrefix, ospLabelPrefix);
      JoinedRowsSnoc(githubIssues[1..i], githubIssues[i], zenhubIssues[1..], gc, zc, pspLabelPrefix, ospLabelPrefix);
      assert githubIssues[1..i + 1] == githubIssues[1..i] + [githubIssues[i]];
      bodyRows := bodyRows + [row];
      i := i + 1;
    }
  }

  /** `JOIN_ISSUES(githubIssues, zenhubIssues, pspLabelPrefix?, ospLabelPrefix?)`. */
  method JoinIssues(githubIssues: Table, zenhubIssues: Table,
                    pspLabelPrefix: Option<string>, ospLabelPrefix: Option<string>)
    returns (result: Result<OutTable, JoinError>)
    ensures result == Joined(githubIssues, zenhubIssues, pspLabelPrefix, ospLabelPrefix)
  {
    if |githubIssues| < 2 { return Failure(NoGithubIssues); }
    if |zenhubIssues| < 2 { return Failure(NoZenhubIssues); }

    var github := ResolveGithubColumns(githubIssues[0]);
    if github.Failure? {
      return Failure(InsufficientGithubColumns(github.error));
    }
    var gc := github.value;

    var zenhub := ResolveZenhubColumns(zenhubIssues[0]);
    if zenhub.Failure? {
      return Failure(InsufficientZenhubColumns(zenhub.error));
    }
    var zc := zenhub.value;

    var issueNumberMap := BuildIssueNumberIndex(zenhubIssues[1..], zc.issueNumber);

    var header := BuildHeader(pspLabelPrefix, ospLabelPrefix, zc.parentEpics.Some?);
    var bodyRows := AssembleRows(githubIssues, zenhubIssues, issueNumberMap, gc, zc,
                                 pspLabelPrefix, ospLabelPrefix);
    result := Success([header] + bodyRows);
  }

  // ---------------------------------------------------------------------------
  // Properties of the joined table
  // ---------------------------------------------------------------------------

  /** Different output columns have different header names. */
  lemma ColumnNameInjective(a: Column, b: Column)
    requires ColumnName(a) == ColumnName(b)
    ensures a == b
  {
    var n := ColumnName(a);
    assert n[0] == ColumnName(b)[0];
    if |n| > 1 {
      assert n[1] == ColumnName(b)[1];
    }
  }

  /** A successful join is the header row followed by one rendered row per issue data row. */
  lemma JoinedTable(githubIssues: Table, zenhubIssues: Table, psp: Option<string>, osp: Option<string>)
    requires Joined(githubIssues, zenhubIssues, psp, osp).Success?
    ensures |githubIssues| >= 2 && |zenhubIssues| >= 2
    ensures ResolveGithub(githubIssues[0]).Success? && ResolveZenhub(zenhubIssues[0]).Success?
    ensures Joined(githubIssues, zenhubIssues, psp, osp).value
         == [HeaderRow(OutputColumns(Given(psp), Given(osp), ResolveZenhub(zenhubIssues[0]).value.parentEpics.Some?))]
            + JoinedRows(githubIssues[1..], zenhubIssues[1..], ResolveGithub(githubIssues[0]).value,
                         ResolveZenhub(zenhubIssues[0]).value, psp, osp)
  {
  }

  lemma OutputColumnsCount(psp: bool, osp: bool, parentEpics: bool)
    ensures |OutputColumns(psp, osp, parentEpics)|
         == 9 + (if psp then 1 else 0) + (if osp then 1 else 0) + (if parentEpics then 1 else 0)
  {
  }

  lemma UniformWidth(header: OutRow, rows: seq<OutRow>)
    requires forall i :: 0 <= i < |rows| ==> |rows[i]| == |header|
    ensures forall i :: 0 <= i < |[header] + rows| ==> |([header] + rows)[i]| == |header|
  {
  }

  /**
   * The joined table has one row per input issue row (the header replacing the
   * input header), and every row is as wide as the header, which has one name
   * per switched-on column.
   */
  lemma JoinedWidth(githubIssues: Table, zenhubIssues: Table, psp: Option<string>, osp: Option<string>)
    requires Joined(githubIssues, zenhubIssues, psp, osp).Success?
    ensures var t := Joined(githubIssues, zenhubIssues, psp, osp).value;
            && |t[0]| == 9 + (if Given(psp) then 1 else 0) + (if Given(osp) then 1 else 0)
                           + (if Str("parent_epics") in zenhubIssues[0] then 1 else 0)
            && |t| == |githubIssues|
            && forall i :: 0 <= i < |t| ==> |t[i]| == |t[0]|
  {
    JoinedTable(githubIssues, zenhubIssues, psp, osp);
    var gc := ResolveGithub(githubIssues[0]).value;
    var zc := ResolveZenhub(zenhubIssues[0]).value;
    var cols := OutputColumns(Given(psp), Given(osp), zc.parentEpics.Some?);
    OutputColumnsCount(Given(psp), Given(osp), zc.parentEpics.Some?);
    UniformWidth(HeaderRow(cols), JoinedRows(githubIssues[1..], zenhubIssues[1..], gc, zc, psp, osp));
  }

  /**
   * Each data cell sits under the header naming its field: whenever the header
   * cell at position `c` is the name of column `col`, the cell at position `c`
   * of data row `i` is that field of issue row `i` joined with the board.
   */
  lemma CellUnderItsHeader(githubIssues: Table, zenhubIssues: Table, psp: Option<string>, osp: Option<string>,
                           i: nat, c: nat, col: Column)
    requires Joined(githubIssues, zenhubIssues, psp, osp).Success?
    requires 1 <= i < |githubIssues|
    requires c < |Joined(githubIssues, zenhubIssues, psp, osp).value[0]|
    requires Joined(githubIssues, zenhubIssues, psp, osp).value[0][c] == Value(Str(ColumnName(col)))
    ensures c < |Joined(githubIssues, zenhubIssues, psp, osp).value[i]|
    ensures Joined(githubIssues, zenhubIssues, psp, osp).value[i][c]
         == Field(JoinIssue(githubIssues[i], zenhubIssues[1..], ResolveGithub(githubIssues[0]).value,
                            ResolveZenhub(zenhubIssues[0]).value, psp, osp), col)
  {
    JoinedTable(githubIssues, zenhubIssues, psp, osp);
    var t := Joined(githubIssues, zenhubIssues, psp, osp).value;
    var gc := ResolveGithub(githubIssues[0]).value;
    var zc := ResolveZenhub(zenhubIssues[0]).value;
    var cols := OutputColumns(Given(psp), Given(osp), zc.parentEpics.Some?);
    var rows := JoinedRows(githubIssues[1..], zenhubIssues[1..], gc, zc, psp, osp);
    var j := JoinIssue(githubIssues[i], zenhubIssues[1..], gc, zc, psp, osp);
    JoinedRowAt(githubIssues, zenhubIssues[1..], gc, zc, psp, osp, i);
    CellInTable(t, cols, rows, j, i, c, col);
  }

  lemma CellInTable(t: OutTable, cols: seq<Column>, rows: seq<OutRow>, j: JoinedIssue, i: nat, c: nat, col: Column)
    requires t == [HeaderRow(cols)] + rows && 1 <= i <= |rows| && rows[i - 1] == Render(j, cols)
    requires c < |t[0]| && t[0][c] == Value(Str(ColumnName(col)))
    ensures c < |t[i]| && t[i][c] == Field(j, col)
  {
    RowOfTable(HeaderRow(cols), rows, i);
    FieldUnderName(cols, j, c, col);
  }

  lemma RowOfTable(header: OutRow, rows: seq<OutRow>, i: nat)
    requires 1 <= i <= |rows|
    ensures ([header] + rows)[0] == header && ([header] + rows)[i] == rows[i - 1]
  {
  }

  /** In a rendered row, the field at the position whose header names `col` is field `col`. */
  lemma FieldUnderName(cols: seq<Column>, j: JoinedIssue, c: nat, col: Column)
    requires c < |cols| && HeaderRow(cols)[c] == Value(Str(ColumnName(col)))
    ensures c < |Render(j, cols)| && Render(j, cols)[c] == Field(j, col)
  {
    ColumnNameInjective(cols[c], col);
  }

  /**
   * An issue whose number matches board row `k` and no later board row takes
   * its pipeline, position, epic flag, estimate and parent epics from row `k`.
   */
  lemma JoinIssueMatched(issue: Row, board: Table, gc: GithubColumns, zc: ZenhubColumns,
                         psp: Option<string>, osp: Option<string>, k: nat)
    requires k < |board|
    requires BoardKey(board[k], zc.issueNumber) == ToString(Get(issue, gc.number))
    requires forall i :: k < i < |board| ==> BoardKey(board[i], zc.issueNumber) != ToString(Get(issue, gc.number))
    ensures var j := JoinIssue(issue, board, gc, zc, psp, osp);
            && j.pipelineName == Get(board[k], zc.pipelineName)
            && j.position == Get(board[k], zc.position)
            && j.isEpic == Get(board[k], zc.isEpic)
            && j.mostLikelySp == Get(board[k], zc.estimateValue)
            && j.parentEpics == (if zc.parentEpics.Some? then Get(board[k], zc.parentEpics.value) else Str(""))
  {
    var hit := LastMatch(board, zc.issueNumber, ToString(Get(issue, gc.number)));
    assert hit.Some?;
  }

  /**
   * An issue that no board row mentions gets blank board fields, and its
   * number, title, state and assignees pass through unchanged.
   */
  lemma JoinIssueUnmatched(issue: Row, board: Table, gc: GithubColumns, zc: ZenhubColumns,
                           psp: Option<string>, osp: Option<string>)
    requires forall i :: 0 <= i < |board| ==> BoardKey(board[i], zc.issueNumber) != ToString(Get(issue, gc.number))
    ensures var j := JoinIssue(issue, board, gc, zc, psp, osp);
            && j.pipelineName == Str("") && j.position == Missing && j.isEpic == Missing
            && j.mostLikelySp == Missing && j.parentEpics == Str("")
            && j.number == Get(issue, gc.number) && j.title == Get(issue, gc.title)
            && j.state == Get(issue, gc.state) && j.assignees == Get(issue, gc.assignees)
  {
  }

  // ---------------------------------------------------------------------------
  // The first issue of the source's test tables
  // ---------------------------------------------------------------------------

  function ExampleGithubHeader(): Row
  {
    [Str("number"), Str("title"), Str("state"), Str("asignnees"), Str("labels")]
  }

  function ExampleBoardHeader(): Row
  {
    [Str("pipeline_id"), Str("pipeline_name"), Str("issue_number"), Str("is_epic"), Str("estimate_value"),
     Str("position")]
  }

  function ExampleBoard(): Table
  {
    [[Str("opq"), Str("New Issues"), Num(123), Bool(false), Num(3), Num(0)],
     [Str("opq"), Str("New Issues"), Num(456), Bool(true), Num(8), Num(1)],
     [Str("rst"), Str("Icebox"), Num(789), Bool(false), Num(1), Num(0)],
     [Str("opq"), Str("New Issues"), Num(98765), Bool(false), Num(1), Num(2)],
     [Str("uvw"), Str("Product Backlog"), Num(43210), Bool(false), Num(5), Num(0)]]
  }

  function ExampleIssue(): Row
  {
    [Str("123"), Str("ABC"), Str("open"), Str("john"), Str("psp_5,osp_2")]
  }

  lemma GithubExampleIndex(h: Row, k: nat, name: string)
    requires h == ExampleGithubHeader() && k < 5 && h[k] == Str(name)
    ensures FirstIndex(h, Str(name)) == k
  {
    forall i | 0 <= i < k
      ensures h[i] != Str(name)
    {
      assert h[i].s[0] != h[k].s[0];
    }
  }

  /** The issue header's columns are found at their positions. */
  lemma ExampleGithubColumns()
    ensures ResolveGithub(ExampleGithubHeader()) == Success(GithubColumns(0, 1, 2, 3, 4))
  {
    var h := ExampleGithubHeader();
    assert "number"[0] == 'n' && "title"[0] == 't' && "state"[0] == 's';
    assert "asignnees"[0] == 'a' && "labels"[0] == 'l';
    GithubExampleIndex(h, 0, "number");
    GithubExampleIndex(h, 1, "title");
    GithubExampleIndex(h, 2, "state");
    GithubExampleIndex(h, 3, "asignnees");
    GithubExampleIndex(h, 4, "labels");
    MissingOfFive(h, "number", "title", "state", "asignnees", "labels");
  }

  lemma Differ(a: string, b: string, d: nat)
    requires d < |a| && d < |b| && a[d] != b[d]
    ensures Str(a) != Str(b)
  {
  }

  lemma DifferInLength(a: string, b: string)
    requires |a| != |b|
    ensures Str(a) != Str(b)
  {
  }

  lemma IndexIs(h: Row, k: nat, name: string)
    requires k < |h| && h[k] == Str(name)
    requires forall i :: 0 <= i < k ==> h[i] != Str(name)
    ensures FirstIndex(h, Str(name)) == k
  {
  }

  lemma BoardExampleLeading(h: Row)
    requires h == ExampleBoardHeader()
    ensures FirstIndex(h, Str("pipeline_name")) == 1 && FirstIndex(h, Str("issue_number")) == 2
    ensures FirstIndex(h, Str("is_epic")) == 3
  {
    BoardExamplePipeline(h);
    BoardExampleIssueNumber(h);
    BoardExampleIsEpic(h);
  }

  lemma BoardExamplePipeline(h: Row)
    requires h == ExampleBoardHeader()
    ensures FirstIndex(h, Str("pipeline_name")) == 1
  {
    var n0, n1 := h[0].s, h[1].s;
    Differ(n0, n1, 9);
    IndexIs(h, 1, n1);
  }

  lemma BoardExampleIssueNumber(h: Row)
    requires h == ExampleBoardHeader()
    ensures FirstIndex(h, Str("issue_number")) == 2
  {
    var n0, n1, n2 := h[0].s, h[1].s, h[2].s;
    Differ(n0, n2, 0);
    Differ(n1, n2, 0);
    IndexIs(h, 2, n2);
  }

  lemma BoardExampleIsEpic(h: Row)
    requires h == ExampleBoardHeader()
    ensures FirstIndex(h, Str("is_epic")) == 3
  {
    var n0, n1, n2, n3 := h[0].s, h[1].s, h[2].s, h[3].s;
    Differ(n0, n3, 0);
    Differ(n1, n3, 0);
    DifferInLength(n2, n3);
    IndexIs(h, 3, n3);
  }

  lemma BoardExampleTrailing(h: Row)
    requires h == ExampleBoardHeader()
    ensures FirstIndex(h, Str("estimate_value")) == 4 && FirstIndex(h, Str("position")) == 5
  {
    var n0, n1, n2, n3, n4, n5 := h[0].s, h[1].s, h[2].s, h[3].s, h[4].s, h[5].s;
    Differ(n0, n4, 0);
    Differ(n1, n4, 0);
    Differ(n2, n4, 0);
    Differ(n3, n4, 0);
    IndexIs(h, 4, n4);
    Differ(n0, n5, 1);
    Differ(n1, n5, 1);
    Differ(n2, n5, 0);
    Differ(n3, n5, 0);
    Differ(n4, n5, 0);
    IndexIs(h, 5, n5);
  }

  lemma BoardExampleNoParentEpics(h: Row)
    requires h == ExampleBoardHeader()
    ensures Str("parent_epics") !in h
  {
    var p := "parent_epics";
    Differ(h[0].s, p, 1);
    Differ(h[1].s, p, 1);
    Differ(h[2].s, p, 0);
    Differ(h[3].s, p, 0);
    Differ(h[4].s, p, 0);
    Differ(h[5].s, p, 1);
  }

  /** The board header has no `parent_epics` column. */
  lemma ExampleBoardColumns()
    ensures ResolveZenhub(ExampleBoardHeader()) == Success(ZenhubColumns(1, 3, 2, 4, 5, None))
  {
    var h := ExampleBoardHeader();
    BoardExampleLeading(h);
    BoardExampleTrailing(h);
    BoardExampleNoParentEpics(h);
    MissingOfFive(h, "pipeline_name", "is_epic", "issue_number", "estimate_value", "position");
    assert MissingColumns(h, ZenhubRequired) == [];
  }

  /**
   * Issue 123 with the pessimistic prefix only: the `psp_5` label is
   * removed, 5 becomes the pessimistic estimate, and the board's first row
   * (numeric 123, matching the text "123") supplies the board fields.
   */
  lemma ExampleJoinWithPsp()
    ensures JoinIssue(ExampleIssue(), ExampleBoard(), GithubColumns(0, 1, 2, 3, 4),
                      ZenhubColumns(1, 3, 2, 4, 5, None), Some("psp_"), None)
         == JoinedIssue(Str("New Issues"), Num(0), Bool(false), Str("123"), Str("ABC"), Str("open"),
                        Str("john"), "osp_2", Num(3), Estimate(NumberOf("5")), Value(Missing), Str(""))
  {
    ExampleMatch();
    ExtractPointFirstExample();
  }

  /** With both prefixes every label is consumed and both estimates are extracted. */
  lemma ExampleJoinWithBoth()
    ensures JoinIssue(ExampleIssue(), ExampleBoard(), GithubColumns(0, 1, 2, 3, 4),
                      ZenhubColumns(1, 3, 2, 4, 5, None), Some("psp_"), Some("osp_"))
         == JoinedIssue(Str("New Issues"), Num(0), Bool(false), Str("123"), Str("ABC"), Str("open"),
                        Str("john"), "", Num(3), Estimate(NumberOf("5")), Estimate(NumberOf("2")), Str(""))
  {
    ExampleMatch();
    ExtractPointFirstExample();
    ExtractPointSecondPassExample();
  }

  /**
   * The second test issue, whose optimistic token comes before its pessimistic
   * one: both points are found and the labels keep only `enhancement`
   * (joinIssues.spec.ts, the row for issue 456).
   */
  lemma ExampleJoinSecondIssue()
    ensures JoinIssue([Str("456"), Str("DEF"), Str("closed"), Str("mike,michael"), Str("enhancement,osp_5,psp_13")],
                      ExampleBoard(), GithubColumns(0, 1, 2, 3, 4),
                      ZenhubColumns(1, 3, 2, 4, 5, None), Some("psp_"), Some("osp_"))
         == JoinedIssue(Str("New Issues"), Num(1), Bool(true), Str("456"), Str("DEF"), Str("closed"),
                        Str("mike,michael"), "enhancement", Num(8), Estimate(NumberOf("13")),
                        Estimate(NumberOf("5")), Str(""))
  {
    ExampleMatchSecond();
    ExtractPointPspAfterOspExample();
    ExtractPointOspAfterPspExample();
  }

  /** Issue 456 is found in the second board row and in no later one. */
  lemma ExampleMatchSecond()
    ensures LastMatch(ExampleBoard(), 2, ToString(Str("456"))) == Some(1)
  {
    var b := ExampleBoard();
    assert BoardKey(b[1], 2) == "456";
    forall i | 1 < i < |b|
      ensures BoardKey(b[i], 2) != "456"
    {
      var key := BoardKey(b[i], 2);
      assert key == ToString(b[i][2]);
      if i == 2 { NumDiffers(789, 456); }
      else if i == 3 { NumDiffers(98765, 456); }
      else { NumDiffers(43210, 456); }
    }
  }

  /** Issue 123 is found in the first board row and in no later one. */
  lemma ExampleMatch()
    ensures LastMatch(ExampleBoard(), 2, ToString(Str("123"))) == Some(0)
  {
    var b := ExampleBoard();
    NumMatchesItsText();
    assert BoardKey(b[0], 2) == "123";
    forall i | 0 < i < |b|
      ensures BoardKey(b[i], 2) != "123"
    {
      var key := BoardKey(b[i], 2);
      assert key == ToString(b[i][2]);
      if i == 1 { NumDiffers(456, 123); }
      else if i == 2 { NumDiffers(789, 123); }
      else if i == 3 { NumDiffers(98765, 123); }
      else { NumDiffers(43210, 123); }
    }
  }

  /** An issue header lacking only `labels` is reported with exactly that name. */
  lemma ExampleMissingLabels(h: Row)
    requires h == [Str("number"), Str("title"), Str("state"), Str("asignnees")]
    ensures MissingColumns(h, GithubRequired) == ["labels"]
    ensures Message(InsufficientGithubColumns(MissingColumns(h, GithubRequired)))
         == "insufficient github issue column(s): " + "labels"
  {
    OnlyLabelsMissing(h);
    assert JoinWith(["labels"], ',') == "labels";
  }

  lemma OnlyLabelsMissing(h: Row)
    requires h == [Str("number"), Str("title"), Str("state"), Str("asignnees")]
    ensures MissingColumns(h, GithubRequired) == ["labels"]
  {
    var l := "labels";
    Differ(h[0].s, l, 0);
    Differ(h[1].s, l, 0);
    Differ(h[2].s, l, 0);
    Differ(h[3].s, l, 0);
    assert MissingOne(h, l) == [l];
    assert h[0] == Str("number") && h[1] == Str("title") && h[2] == Str("state") && h[3] == Str("asignnees");
    assert MissingOne(h, "number") == [] && MissingOne(h, "title") == [];
    assert MissingOne(h, "state") == [] && MissingOne(h, "asignnees") == [];
    MissingOfFive(h, "number", "title", "state", "asignnees", l);
  }

  lemma NumDiffers(a: int, b: int)
    requires a != b
    ensures ToString(Num(a)) != ToString(Num(b))
  {
    if ToString(Num(a)) == ToString(Num(b)) {
      NumToStringInjective(a, b);
    }
  }
}
