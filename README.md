# zensheets core in Dafny

zensheets joins GitHub issue tables with ZenHub board tables inside a
spreadsheet. This project models its two pure-data parts and proves
properties of them:

- `JOIN_ISSUES` (`src/customFunctions/joinIssues.ts`) takes an issue table
  and a board table (row 0 of each is a header) and two optional label
  prefixes. It locates the columns it needs by header name and throws when
  a table has fewer than two rows or lacks a required column. It indexes the
  board rows by `String(issue_number)`, where a later row with the same
  number wins. Each issue row becomes one output row: board fields come from
  the matching board row, or are blank when no row matches. When a prefix is
  given, its story-point token is pulled out of the labels by `extractPoint`.
  A prefix counts as given only when it is truthy, so an empty prefix `""`
  is treated exactly as an absent one: its column is switched off and the
  labels are left alone.
- `extractPoint` finds the first occurrence of the prefix in the
  comma-joined labels. The point is the text from the end of the prefix up to
  the next comma after the match, or to the end. When a comma follows the
  match, the text from the match up to and including that comma is cut out.
  When none follows, the match and the one character before it are dropped
  (all of the labels when the match is at position 0). The search is a plain
  substring search, so a prefix inside a longer label also matches:
  - with no comma after it, the character before the match is dropped as if
    it were the comma (`"bug,xpsp_3"` leaves `"bug,"`);
  - with a comma after it, the text before the match stays and joins the next
    label (`"bug,xpsp_3,foo"` leaves `"bug,xfoo"`).
- `parseLinkHeader` (`src/utils/parseLinkHeader.ts`) reads the `first`,
  `next`, `prev` and `last` URIs out of an HTTP `Link` header. It is a
  simplified reader of the link serialisation in section 3 of RFC 8288.
  - The header is split at `,` and each entry at `;`.
  - An entry is skipped when it has no parameter, or when its trimmed first
    part is not `<…>`.
  - The last `rel=` parameter of an entry gives its relation, with the
    surrounding quotes removed.
  - For each relation, the last entry naming it wins.

Modules:

- `Wrappers`: `Option` and `Result`.
- `JsStrings`: the ECMAScript string built-ins the code relies on, stated
  with their JavaScript semantics: `indexOf`, `slice`, `split`, `join` and
  `trim`.
- `Scalars`: spreadsheet cells (string, integer, boolean, `undefined`) and
  `String(...)`.
- `LabelPoints`: `extractPoint`.
- `JoinIssues`: `JOIN_ISSUES`.
- `LinkHeader`: `parseLinkHeader`.

The imperative parts are methods proved against specification functions:

- the column look-ups with their `push` lists;
- the `forEach` that fills `issueNumberMap`;
- the header `push`es;
- the row `map`;
- the outer `reduce` of `parseLinkHeader`.

Lemmas about those specification functions carry what the code promises.

The column order follows the code: `pipeline_name, position, is_epic, number, …`.
The expectations in `__tests__/customFunctions/joinIssues.spec.ts` list
`number, title, …` first and contradict the code, so they are not used.
The examples taken from that test file check only the joined fields and the
`extractPoint` results, which do not depend on the column order.

## Model

| member | source | states |
|---|---|---|
| JoinIssues.FirstIndex | src/customFunctions/joinIssues.ts:19-24 | `header.indexOf(name)` is the first position holding that cell, and -1 exactly when the header has no such cell |
| JoinIssues.MissingColumns | src/customFunctions/joinIssues.ts:26-31 | the missing list holds exactly the required names absent from the header, and is empty iff every required name is present |
| JoinIssues.ResolveGithub | src/customFunctions/joinIssues.ts:19-38 | the issue columns are found iff none is missing, and the error lists all missing names; each found position is the first header cell with that name (including the misspelt `asignnees`) |
| JoinIssues.ResolveZenhub | src/customFunctions/joinIssues.ts:40-63 | the five required board columns resolve iff none is missing, and the error lists all missing names; `parent_epics` is optional and is present iff the header has it |
| JoinIssues.ResolveGithubColumns | src/customFunctions/joinIssues.ts:19-38 | the five `indexOf` calls and conditional `push`es compute exactly `ResolveGithub`: the missing names in checking order, or the positions |
| JoinIssues.ResolveZenhubColumns | src/customFunctions/joinIssues.ts:40-63 | the six `indexOf` calls and five conditional `push`es compute exactly `ResolveZenhub` |
| JoinIssues.MissingPushed | src/customFunctions/joinIssues.ts:27-31 | one `if (index < 0) push(name)` appends the name exactly when the header lacks it |
| JoinIssues.MissingOfFive | src/customFunctions/joinIssues.ts:26-31 | the missing list of five names is the concatenation of each name's own entry, in order |
| JoinIssues.JoinedErrors | src/customFunctions/joinIssues.ts:16-63 | each of the four errors is raised exactly under its own condition, in the order the code checks them |
| JoinIssues.JoinedMissing | src/customFunctions/joinIssues.ts:33-38 | a column error carries every missing name of that table, in the required order |
| JoinIssues.Message | src/customFunctions/joinIssues.ts:33-63 | no contract of its own: the thrown text is the fixed prefix followed by the missing names joined with `,`; `ExampleMissingLabels` pins one case |
| JoinIssues.ExampleMissingLabels | src/customFunctions/joinIssues.ts:26-38 | an issue header lacking only `labels` gives the missing list `["labels"]` and the message `insufficient github issue column(s): labels` |
| JoinIssues.BoardKey | src/customFunctions/joinIssues.ts:67 | no contract of its own: the key of a board data row is `String(issue[zenhubIssueNumberIndex])`; `LastMatch` and `BuildIssueNumberIndex` state how the keys are used |
| JoinIssues.LastMatch | src/customFunctions/joinIssues.ts:65-69 | the found board row has the key, no later row has it, and nothing is found iff no row has the key |
| JoinIssues.LastMatchStep | src/customFunctions/joinIssues.ts:66-69 | one more `issueNumberMap[num] = index` makes that row the last match of its own key and changes no other key |
| JoinIssues.BuildIssueNumberIndex | src/customFunctions/joinIssues.ts:65-69 | after the `forEach`, a key is in the map iff some board row has it, and it maps to the last such row |
| JoinIssues.Given | src/customFunctions/joinIssues.ts:82-83 | no contract of its own: a prefix counts only when it is given and not `""`, the truthiness test of lines 82-83, 90, 97 and 133-134; `EmptyPspIsAbsent` and `EmptyOspIsAbsent` state what that means for the result |
| JoinIssues.EmptyPspIsAbsent | src/customFunctions/joinIssues.ts:82-134 | a pessimistic prefix `""` gives exactly the result of an omitted one: same errors, same header and same rows |
| JoinIssues.EmptyOspIsAbsent | src/customFunctions/joinIssues.ts:82-134 | an optimistic prefix `""` gives exactly the result of an omitted one |
| JoinIssues.EmptyPrefixRows | src/customFunctions/joinIssues.ts:86-137 | the body rows for an empty prefix equal those for an omitted one, for either prefix |
| JoinIssues.HeaderLayout | src/customFunctions/joinIssues.ts:71-84 | the header is the nine fixed names, then `pessimistic_sp`, `optimistic_sp` and `parent_epics`, each exactly when switched on |
| JoinIssues.BuildHeader | src/customFunctions/joinIssues.ts:71-84 | the header `push`es build the header of the switched-on columns |
| JoinIssues.OutputColumnsCount | src/customFunctions/joinIssues.ts:71-84 | nine columns plus one for each switched-on option |
| JoinIssues.ColumnNameInjective | src/customFunctions/joinIssues.ts:71-81 | no two output columns share a header name |
| JoinIssues.RenderLayout | src/customFunctions/joinIssues.ts:121-135 | a row is the nine fixed fields, then the pessimistic point, the optimistic point and the parent epics, each exactly when switched on |
| JoinIssues.JoinIssue | src/customFunctions/joinIssues.ts:86-137 | no contract of its own: the issue-side fields are stated by `JoinIssueOwnFields`, the board fields by `JoinIssueMatched` and `JoinIssueUnmatched` |
| JoinIssues.JoinIssueOwnFields | src/customFunctions/joinIssues.ts:87-131 | number, title, state and assignees pass through; the pessimistic point is `extractPoint` of `String(labels)`, the optimistic point is `extractPoint` of the labels the pessimistic pass left, and the labels column is what both passes left; each point cell is an estimate exactly when its prefix is given, and the labels never grow |
| JoinIssues.JoinIssueMatched | src/customFunctions/joinIssues.ts:103-119 | an issue whose number matches board row `k` and no later row takes pipeline, position, epic flag, estimate and parent epics from row `k` |
| JoinIssues.JoinIssueUnmatched | src/customFunctions/joinIssues.ts:103-119 | an issue no board row matches gets an empty pipeline name, `undefined` position, epic flag and estimate, and empty parent epics, while its number, title, state and assignees pass through unchanged |
| JoinIssues.AssembleRow | src/customFunctions/joinIssues.ts:86-137 | one `map` callback: extract the points in turn, look up the index, push the optional cells; this gives the rendered join of the issue |
| JoinIssues.JoinedRows | src/customFunctions/joinIssues.ts:86-138 | one output row per issue data row, each as wide as the switched-on columns |
| JoinIssues.JoinedRowAt | src/customFunctions/joinIssues.ts:86-138 | issue data row `i` becomes body row `i - 1`, the rendered join of that issue |
| JoinIssues.JoinedRowsSnoc | src/customFunctions/joinIssues.ts:86-138 | one more issue row appends its rendered row and keeps the earlier ones |
| JoinIssues.AssembleRows | src/customFunctions/joinIssues.ts:86-138 | the loop over the issue data rows produces exactly the joined body rows, in order |
| JoinIssues.JoinIssues | src/customFunctions/joinIssues.ts:10-141 | the whole function returns the same table or error as the specification `Joined` |
| JoinIssues.Joined | src/customFunctions/joinIssues.ts:10-141 | a successful join has exactly as many rows as the issue input; its errors are stated by `JoinedErrors` and `JoinedMissing`, its shape and cells by `JoinedTable`, `JoinedWidth` and `CellUnderItsHeader` |
| JoinIssues.JoinedTable | src/customFunctions/joinIssues.ts:140 | a successful result is the header followed by the body rows, and it implies both tables have data rows and all required columns |
| JoinIssues.JoinedWidth | src/customFunctions/joinIssues.ts:71-140 | the table has as many rows as the issue input, none dropped; the header has 9 columns plus one per given prefix plus one when the board has `parent_epics`, and every row is as wide as the header |
| JoinIssues.CellUnderItsHeader | src/customFunctions/joinIssues.ts:71-135 | whenever header cell `c` names a column, cell `c` of data row `i` is that column's field of issue `i` joined with the board |
| JoinIssues.ExampleGithubColumns | __tests__/customFunctions/joinIssues.spec.ts:5-10 | the test's issue header resolves to positions 0 to 4 |
| JoinIssues.ExampleBoardColumns | __tests__/customFunctions/joinIssues.spec.ts:12-26 | the test's board header resolves to pipeline 1, epic 3, number 2, estimate 4, position 5, with no `parent_epics` |
| JoinIssues.ExampleMatch | __tests__/customFunctions/joinIssues.spec.ts:5-26 | the text issue number `"123"` matches the numeric board cell 123 in board row 0 and in no later row |
| JoinIssues.ExampleJoinWithPsp | __tests__/customFunctions/joinIssues.spec.ts:85-99 | issue 123 with `psp_` keeps the labels `osp_2`, gets point 5, and takes `New Issues`, 0, false, 3 from the board |
| JoinIssues.ExampleJoinWithBoth | __tests__/customFunctions/joinIssues.spec.ts:127-144 | issue 123 with `psp_` and `osp_` ends with empty labels and points 5 and 2 |
| JoinIssues.ExampleJoinSecondIssue | __tests__/customFunctions/joinIssues.spec.ts:145-157 | issue 456, whose labels `enhancement,osp_5,psp_13` hold the optimistic token first, ends with labels `enhancement`, points 13 and 5, and takes `New Issues`, 1, true, 8 from the board |
| JoinIssues.ExampleMatchSecond | __tests__/customFunctions/joinIssues.spec.ts:5-26 | the text issue number `"456"` matches the numeric board cell 456 in board row 1 and in no later row |
| LabelPoints.ExtractPoint | src/customFunctions/joinIssues.ts:143-167 | no contract of its own: the exact cuts are stated by `ExtractPointAbsent`, `ExtractPointBeforeComma`, `ExtractPointAtEnd` and `ExtractPointRoundTrip`, and `ExtractPointShrinks` bounds the result |
| LabelPoints.ExtractPointShrinks | src/customFunctions/joinIssues.ts:150-166 | the new labels are never longer than the old ones, and a `NaN` point leaves them unchanged |
| LabelPoints.ExtractPointAbsent | src/customFunctions/joinIssues.ts:150-156 | the point is the literal `NaN` of line 154 exactly when the prefix occurs nowhere, and then the labels come back unchanged |
| LabelPoints.ExtractPointBeforeComma | src/customFunctions/joinIssues.ts:157-162 | a token followed by a comma is cut out up to and including that comma, and the point is the text between the prefix and the comma |
| LabelPoints.ExtractPointAtEnd | src/customFunctions/joinIssues.ts:157-165 | a token with no later comma leaves `""` when it starts the labels; otherwise the labels lose the token and the one character before it; the point is the rest of the text |
| LabelPoints.ExtractPointRoundTrip | src/customFunctions/joinIssues.ts:143-167 | for a prefix at a label boundary, putting `prefix + point` back at the cut position, with its comma, gives the original labels |
| LabelPoints.TokenBeforeComma | src/customFunctions/joinIssues.ts:157-162 | for labels `a + prefix + t + "," + b` where the prefix's first character does not occur in `a`, the result is `a + b` with point `t` |
| LabelPoints.TokenAtEnd | src/customFunctions/joinIssues.ts:157-165 | for labels `a + prefix + t` where the prefix's first character does not occur in `a`, the result is `a` without its last character (or `""`) with point `t` |
| LabelPoints.TokenAtEndPastNearMiss | src/customFunctions/joinIssues.ts:150-165 | for labels `x + [prefix[0]] + y + prefix + t` where the prefix's first character occurs only at that one earlier place and is not followed there by the prefix's second character, the token and the character before it are dropped and the point is `t` |
| LabelPoints.ExtractPointMiddleExample | __tests__/customFunctions/joinIssues.spec.ts:207-212 | `("enhancement,osp_5,psp_13", "osp_")` gives `"enhancement,psp_13"` and point `5` |
| LabelPoints.ExtractPointOnlyExample | __tests__/customFunctions/joinIssues.spec.ts:214-219 | `("psp_5", "psp_")` gives `""` and point `5` |
| LabelPoints.ExtractPointFirstExample | __tests__/customFunctions/joinIssues.spec.ts:221-226 | `("psp_5,osp_2", "psp_")` gives `"osp_2"` and point `5` |
| LabelPoints.ExtractPointLastExample | __tests__/customFunctions/joinIssues.spec.ts:228-233 | `("psp_5,osp_2", "osp_")` gives `"psp_5"` and point `2` |
| LabelPoints.ExtractPointSecondPassExample | src/customFunctions/joinIssues.ts:96-101 | the optimistic pass over the labels left by the pessimistic one, `"osp_2"`, gives `""` and point `2` |
| LabelPoints.ExtractPointInsideLabelExample | src/customFunctions/joinIssues.ts:150-165 | a prefix inside a longer label matches: `("bug,xpsp_3", "psp_")` gives `"bug,"` and point `3` |
| LabelPoints.ExtractPointGluedExample | src/customFunctions/joinIssues.ts:157-162 | with a comma after a match inside a label, the token and the comma are cut: `("bug,xpsp_3,foo", "psp_")` gives `"bug,xfoo"` and point `3` |
| LabelPoints.ExtractPointPspAfterOspExample | __tests__/customFunctions/joinIssues.spec.ts:5-9 | the pessimistic pass over `"enhancement,osp_5,psp_13"` skips the `p` inside `osp_5` and gives `"enhancement,osp_5"` and point `13` |
| LabelPoints.ExtractPointOspAfterPspExample | src/customFunctions/joinIssues.ts:96-101 | the optimistic pass over `"enhancement,osp_5"` gives `"enhancement"` and point `5` |
| Scalars.Get | src/customFunctions/joinIssues.ts:111-117 | reading a column past the end of a row gives `undefined` |
| Scalars.ToString | src/customFunctions/joinIssues.ts:67 | no contract of its own: `String(v)` for the four cell kinds, with integers printed in full (see "## Left out"); `NumToStringInjective` and `NumMatchesItsText` state what the board index relies on |
| Scalars.NatToStringInjective | src/customFunctions/joinIssues.ts:67 | distinct natural numbers have distinct decimal texts |
| Scalars.NumToStringInjective | src/customFunctions/joinIssues.ts:67 | `String(a) == String(b)` for integers only when `a == b`, so numeric keys of `issueNumberMap` never collide |
| Scalars.NumMatchesItsText | src/customFunctions/joinIssues.ts:104 | the number 123 and the text `"123"` give the same key, so a text issue number finds a numeric board number |
| JsStrings.IndexOf | src/customFunctions/joinIssues.ts:150-157 | `indexOf(needle, from)` is the first match at or after the clamped start, or -1 when there is none |
| JsStrings.Slice | src/customFunctions/joinIssues.ts:159-165 | `slice(b, e)` is the substring with both ends clamped to the string: `s[b..e]` inside it, `s[b..]` when `e` passes the end, and empty when `e <= b` or `b` is at or past the end |
| JsStrings.Trim | src/utils/parseLinkHeader.ts:27 | `trim` returns a string that neither starts nor ends with whitespace |
| JsStrings.TrimRemovesEnds | src/utils/parseLinkHeader.ts:27 | `trim` removes only leading and trailing whitespace and keeps the middle |
| JsStrings.JoinWith | src/utils/parseLinkHeader.ts:44 | no contract of its own: `parts.join(sep)` puts one `sep` between successive parts and none around them (also `join(",")` at joinIssues.ts lines 36 and 61); `Split` is its inverse, as the `Split` contract states |
| JsStrings.Split | src/utils/parseLinkHeader.ts:20 | `split` gives at least one piece, no piece holds the separator, and joining the pieces gives the input back |
| JsStrings.SplitAround | src/utils/parseLinkHeader.ts:34 | splitting at one separator occurrence splits the two sides independently |
| JsStrings.AfterFirstSeparator | src/utils/parseLinkHeader.ts:44 | re-joining the pieces after the first gives exactly the text after the first separator |
| LinkHeader.RelNamed | src/utils/parseLinkHeader.ts:52-65 | the `switch` names each relation exactly for its own string |
| LinkHeader.Store | src/utils/parseLinkHeader.ts:52-65 | `prev[rel] = uri` sets that property and keeps the other three |
| LinkHeader.Unquote | src/utils/parseLinkHeader.ts:44-47 | a value wrapped in quotes loses them, a lone `"` becomes empty, and anything else is kept |
| LinkHeader.RelKey | src/utils/parseLinkHeader.ts:34-44 | a parameter passes the length and key checks exactly when it starts with `rel=`, and its re-joined value is everything after that `=` |
| LinkHeader.RelParam | src/utils/parseLinkHeader.ts:34-49 | no contract of its own: the inner callback on one parameter; `RelParamMeaning` states when it yields a value and which |
| LinkHeader.RelParamMeaning | src/utils/parseLinkHeader.ts:33-50 | a parameter contributes a relation exactly when its trimmed text starts with `rel=`, and that relation is the unquoted rest |
| LinkHeader.RelOf | src/utils/parseLinkHeader.ts:33-50 | no contract of its own: the inner `reduce` from `""`; `RelOfLast` states that it is the last `rel` value, or `""` |
| LinkHeader.RelOfLast | src/utils/parseLinkHeader.ts:33-50 | the inner `reduce` gives the value of the last `rel` parameter, or `""` when there is none |
| LinkHeader.SplitPieces | src/utils/parseLinkHeader.ts:22-23 | an entry has a second `;` piece exactly when it contains `;` |
| LinkHeader.ParseEntry | src/utils/parseLinkHeader.ts:22-31 | no contract of its own: the outer callback up to the `switch`; `ParseEntryKept` and `ParseEntryLink` state when an entry is kept and what it yields |
| LinkHeader.ParseEntryKept | src/utils/parseLinkHeader.ts:22-31 | an entry is kept exactly when it has a `;` and its trimmed first part is `<…>` |
| LinkHeader.ParseEntryLink | src/utils/parseLinkHeader.ts:27-50 | a kept entry's URI is what the angle brackets enclose, and its relation comes from the parameters after the first `;` |
| LinkHeader.EntryParsed | src/utils/parseLinkHeader.ts:21-50 | an entry `<uri>; rel="name"`, with or without a leading space, parses to that name and URI |
| LinkHeader.LastRecorder | src/utils/parseLinkHeader.ts:21-68 | the chosen entry records the relation, no later entry does, and none is chosen iff no entry records it |
| LinkHeader.Apply | src/utils/parseLinkHeader.ts:52-67 | applying an entry changes only the relation it records, to its URI |
| LinkHeader.ApplyRecords | src/utils/parseLinkHeader.ts:21-68 | links that describe some entries, with one more entry applied, describe those entries plus that one |
| LinkHeader.AddEntry | src/utils/parseLinkHeader.ts:21-68 | the outer callback, with its early returns and the `switch`, is exactly `Apply` of the parsed entry |
| LinkHeader.Reduced | src/utils/parseLinkHeader.ts:21-68 | no contract of its own: the outer `reduce` from `{}`; `ReducedDescribes` states that it holds the last URI recorded for each relation |
| LinkHeader.ReducedDescribes | src/utils/parseLinkHeader.ts:19-71 | the reduction holds, for every relation, the URI of the last entry recording it, and nothing when no entry does |
| LinkHeader.ParseLinkHeader | src/utils/parseLinkHeader.ts:19-71 | the loop over the `,`-split entries returns the reduction, which describes the header's entries |
| LinkHeader.DescribesUnique | src/utils/parseLinkHeader.ts:12-17 | only one `RelLinks` value matches a given description |
| LinkHeader.NextAndLast | src/utils/parseLinkHeader.ts:2-3 | `<u1>; rel="next", <u2>; rel="last"` sets exactly `next` and `last`, for any URIs without `,` or `;` |
| LinkHeader.GithubPagesExample | __tests__/utils/parseLinkHeader.spec.ts:5-9 | the test header yields exactly `next` = page 2 and `last` = page 30, with `first` and `prev` unset |

## Left out

- LabelPoints.ExtractPoint: `Number(...)` is not evaluated. The point is kept as `NumberOf(text)`, the exact text `Number` would receive, so `"0.5"` and `" 5"` are not turned into numbers and an unparsable text is not turned into `NaN`.
- Numeric cells: spreadsheet numbers are integers only. Floating-point cells and their `String(...)` text are not modelled.
- Scalars.ToString: numbers are unbounded integers and are printed with every digit. A JavaScript number is a double, exact only up to 2^53, and `String(x)` switches to exponent notation from 10^21 on (`String(1e21)` is `"1e+21"`). Values above 2^53 and the exponent form are not modelled, so for such an issue number the model's `issueNumberMap` key differs from the code's.
- JoinIssues.BuildIssueNumberIndex: `issueNumberMap` is a plain JavaScript object. Keys such as `"constructor"` or `"__proto__"` behave differently there. The model uses a true dictionary.
- The `!Array.isArray(fragments)` test on parseLinkHeader.ts line 35 is always false for the result of `split`, so the model has no branch for it.
- Strings are sequences of Unicode characters, not UTF-16 code units. Every position, length and `slice` in the model counts characters. `labels.slice(0, start - 1)` can therefore differ: for `"😀psp_3"` with `psp_`, JavaScript keeps half of the emoji's surrogate pair where the model gives `""`. Labels with characters outside the Basic Multilingual Plane next to a token are not modelled faithfully.
- JsStrings.Slice: only the non-negative arguments the core passes are modelled. The negative-index behaviour of `slice` is not modelled.
- `String(...)` is modelled only for the four cell kinds a sheet supplies. Arrays, objects and `null` in cells are not modelled.
- The fetch wrappers in `src/utils/` (`getGitHubIssues`, `getZenHubBoard`, `getZenHubEpicData`, `getZenHubWorkspace`) are left out. They are network I/O and are not part of this model.
- src/customFunctions/index.ts and src/customFunctions.ts are left out. They define `GITHUB_ISSUES`, `GITHUB_ISSUES_BY_REPOID` and `ZENHUB_ISSUES`, which read the API tokens from `PropertiesService`, fetch over the network and build the two input tables, joining each issue's assignees and labels with `,`. Neither file calls `JOIN_ISSUES` or `parseLinkHeader`.
- src/main.ts is left out. It holds the add-on's menu, configuration card and sidebar, the storing of API tokens through `PropertiesService`, and the sample function `DOUBLE`; it does not call the core either.
- Epic aggregation is not part of this model.
- The column order expected by `__tests__/customFunctions/joinIssues.spec.ts` is not modelled. That file lists `number, title, …` before `pipeline_name`, while the code lists `pipeline_name` first; the model follows the code.
