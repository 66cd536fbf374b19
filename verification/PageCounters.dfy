/** Counting the distinct rows of paged answers
    (scripts/run_chat_shortcut_live_audit.py). Two counters do it in two ways. The paths
    of a tool's collection, Python's text of a value and the tests for reactions and
    threads are arguments. */
module PageCounters {
  import opened Collections
  import opened GoStrings
  import opened Json

  /** An observed call: which tool, and what it answered. */
  datatype Call = Call(tool: string, raw: Value)

  // The rows of a call

  /** The list at a path, where "*" goes through every item of a list. */
  function AtPath(value: Value, path: seq<string>): Option<seq<Value>>
    decreases |path|, 1, 0
  {
    if path == [] then (if value.Arr? then Some(value.items) else None)
    else if path[0] == "*" then (if value.Arr? then Some(Combined(value.items, path[1..])) else None)
    else if !value.Obj? || path[0] !in value.fields then None
    else AtPath(value.fields[path[0]], path[1..])
  }

  function Combined(items: seq<Value>, path: seq<string>): seq<Value>
    decreases |path|, 2, |items|
  {
    if items == [] then []
    else
      var last := AtPath(items[|items| - 1], path);
      Combined(items[..|items| - 1], path) + if last.Some? then last.value else []
  }

  /** The rows at the first of the paths that leads to a list. */
  function RowsAt(raw: Value, paths: seq<seq<string>>): Option<seq<Value>> {
    if paths == [] then None
    else
      var rows := AtPath(raw, paths[0]);
      if rows.Some? then rows else RowsAt(raw, paths[1..])
  }

  function Page(call: Call, tool: string, paths: seq<seq<string>>): Option<seq<Value>> {
    if call.tool == tool then RowsAt(call.raw, paths) else None
  }

  /** All rows of a tool's calls, page after page. */
  function AllRows(calls: seq<Call>, tool: string, paths: seq<seq<string>>): seq<Value> {
    if calls == [] then []
    else
      var last := Page(calls[|calls| - 1], tool, paths);
      AllRows(calls[..|calls| - 1], tool, paths) + if last.Some? then last.value else []
  }

  predicate AnyPage(calls: seq<Call>, tool: string, paths: seq<seq<string>>) {
    exists i | 0 <= i < |calls| :: Page(calls[i], tool, paths).Some?
  }

  // The meaning of a count

  predicate Empty(value: Value) {
    value == Null || value == Str("")
  }

  /** The text of the first identity key a row has a value for. */
  function Identity(row: Value, keys: seq<string>, text: Value -> string): Option<string> {
    if !row.Obj? || keys == [] then None
    else if keys[0] in row.fields && !Empty(row.fields[keys[0]]) then Some(text(row.fields[keys[0]]))
    else Identity(row, keys[1..], text)
  }

  /** Python's text is empty for nothing but the empty string. */
  ghost predicate Textual(text: Value -> string) {
    forall value :: !Empty(value) ==> text(value) != ""
  }

  /** The identities of the rows that pass a test. */
  ghost function Ids(rows: seq<Value>, test: Value -> bool, keys: seq<string>, text: Value -> string): set<string> {
    set row | row in rows && test(row) && Identity(row, keys, text).Some? :: Identity(row, keys, text).value
  }

  /** How many rows without an identity pass a test. */
  function Anonymous(rows: seq<Value>, test: Value -> bool, keys: seq<string>, text: Value -> string): nat {
    if rows == [] then 0
    else
      var last := rows[|rows| - 1];
      Anonymous(rows[..|rows| - 1], test, keys, text) + if test(last) && Identity(last, keys, text).None? then 1 else 0
  }

  /** The number of distinct rows that pass a test: rows with the same identity are one,
      and a row without an identity is like no other. */
  ghost function Distinct(rows: seq<Value>, test: Value -> bool, keys: seq<string>, text: Value -> string): nat {
    |Ids(rows, test, keys, text)| + Anonymous(rows, test, keys, text)
  }

  predicate Every(row: Value) {
    true
  }

  lemma OneRowMore(rows: seq<Value>, row: Value, test: Value -> bool, keys: seq<string>, text: Value -> string)
    ensures Ids(rows + [row], test, keys, text) ==
            Ids(rows, test, keys, text) +
            if test(row) && Identity(row, keys, text).Some? then {Identity(row, keys, text).value} else {}
    ensures Anonymous(rows + [row], test, keys, text) ==
            Anonymous(rows, test, keys, text) + if test(row) && Identity(row, keys, text).None? then 1 else 0
  {
    assert (rows + [row])[..|rows|] == rows;
  }

  // The labels of the message counter

  function IdLabel(id: string): string {
    "id:" + id
  }

  function AnonymousLabel(n: nat): string {
    "anonymous:" + Decimal(n)
  }

  ghost function IdLabels(ids: set<string>): set<string> {
    set id | id in ids :: IdLabel(id)
  }

  ghost function AnonymousLabels(nums: set<nat>): set<string> {
    set n | n in nums :: AnonymousLabel(n)
  }

  lemma {:induction false} IdLabelsSize(ids: set<string>)
    ensures |IdLabels(ids)| == |ids|
  {
    if ids != {} {
      var id :| id in ids;
      IdLabelsSize(ids - {id});
      forall other | other in ids - {id}
        ensures IdLabel(other) != IdLabel(id)
      {
        assert IdLabel(other)[3..] == other && IdLabel(id)[3..] == id;
      }
      assert IdLabels(ids) == IdLabels(ids - {id}) + {IdLabel(id)};
    }
  }

  lemma AnonymousLabelsDiffer(m: nat, n: nat)
    requires m != n
    ensures AnonymousLabel(m) != AnonymousLabel(n)
  {
    assert AnonymousLabel(m)[10..] == Decimal(m) && AnonymousLabel(n)[10..] == Decimal(n);
    if Decimal(m) == Decimal(n) {
      DecimalInjective(m, n);
    }
  }

  lemma {:induction false} AnonymousLabelsSize(nums: set<nat>)
    ensures |AnonymousLabels(nums)| == |nums|
  {
    if nums != {} {
      var n :| n in nums;
      AnonymousLabelsSize(nums - {n});
      forall other | other in nums - {n}
        ensures AnonymousLabel(other) != AnonymousLabel(n)
      {
        AnonymousLabelsDiffer(other, n);
      }
      assert AnonymousLabels(nums) == AnonymousLabels(nums - {n}) + {AnonymousLabel(n)};
    }
  }

  ghost function Labels(ids: set<string>, nums: set<nat>): set<string> {
    IdLabels(ids) + AnonymousLabels(nums)
  }

  /** No label of an identity is the label of a row without one, whatever it reads. */
  lemma LabelsSize(ids: set<string>, nums: set<nat>)
    ensures |Labels(ids, nums)| == |ids| + |nums|
  {
    forall id, n | id in ids && n in nums
      ensures IdLabel(id) != AnonymousLabel(n)
    {
      assert IdLabel(id)[0] == 'i' && AnonymousLabel(n)[0] == 'a';
    }
    assert IdLabels(ids) !! AnonymousLabels(nums);
    IdLabelsSize(ids);
    AnonymousLabelsSize(nums);
  }

  lemma LabelsGrow(ids: set<string>, nums: set<nat>, id: string, n: nat)
    ensures Labels(ids + {id}, nums) == Labels(ids, nums) + {IdLabel(id)}
    ensures Labels(ids, nums + {n}) == Labels(ids, nums) + {AnonymousLabel(n)}
  {
    assert IdLabels(ids + {id}) == IdLabels(ids) + {IdLabel(id)};
    assert AnonymousLabels(nums + {n}) == AnonymousLabels(nums) + {AnonymousLabel(n)};
  }

  ghost predicate LabelledBy(labels: set<string>, nums: set<nat>, rows: seq<Value>, test: Value -> bool,
      keys: seq<string>, text: Value -> string, bound: nat)
  {
    && (forall n | n in nums :: n < bound)
    && |nums| == Anonymous(rows, test, keys, text)
    && labels == Labels(Ids(rows, test, keys, text), nums)
  }

  /** The labels stand for the rows that pass a test; `bound` rows without an identity
      have been numbered. */
  ghost predicate Labelled(labels: set<string>, rows: seq<Value>, test: Value -> bool, keys: seq<string>,
      text: Value -> string, bound: nat)
  {
    exists nums: set<nat> :: LabelledBy(labels, nums, rows, test, keys, text, bound)
  }

  /** The label of a row, given how many rows have been numbered. */
  function LabelOf(row: Value, keys: seq<string>, text: Value -> string, bound: nat): string {
    match Identity(row, keys, text)
    case Some(id) => IdLabel(id)
    case None => AnonymousLabel(bound)
  }

  lemma OneNumberMore(nums: set<nat>, bound: nat)
    requires forall n | n in nums :: n < bound
    ensures |nums + {bound}| == |nums| + 1 && forall n | n in nums + {bound} :: n < bound + 1
  {
    assert bound !in nums;
  }

  /** The labels with that of a row added, if it passes the test. */
  function WithLabel(labels: set<string>, row: Value, test: Value -> bool, keys: seq<string>, text: Value -> string,
      bound: nat): set<string>
  {
    if test(row) then labels + {LabelOf(row, keys, text, bound)} else labels
  }

  function NextBound(row: Value, keys: seq<string>, text: Value -> string, bound: nat): nat {
    if Identity(row, keys, text).None? then bound + 1 else bound
  }

  lemma LabelOneMore(labels: set<string>, rows: seq<Value>, row: Value, test: Value -> bool, keys: seq<string>,
      text: Value -> string, bound: nat)
    requires Labelled(labels, rows, test, keys, text, bound)
    ensures Labelled(WithLabel(labels, row, test, keys, text, bound),
                     rows + [row], test, keys, text, NextBound(row, keys, text, bound))
  {
    var nums: set<nat> :| LabelledBy(labels, nums, rows, test, keys, text, bound);
    var ids := Ids(rows, test, keys, text);
    OneRowMore(rows, row, test, keys, text);
    match Identity(row, keys, text) {
      case Some(id) =>
        LabelsGrow(ids, nums, id, bound);
        assert LabelledBy(WithLabel(labels, row, test, keys, text, bound), nums, rows + [row], test, keys, text, bound);
      case None =>
        LabelsGrow(ids, nums, "", bound);
        OneNumberMore(nums, bound);
        var nums' := if test(row) then nums + {bound} else nums;
        var more := WithLabel(labels, row, test, keys, text, bound);
        assert LabelledBy(more, nums', rows + [row], test, keys, text, bound + 1);
    }
  }

  lemma LabelledSize(labels: set<string>, rows: seq<Value>, test: Value -> bool, keys: seq<string>,
      text: Value -> string, bound: nat)
    requires Labelled(labels, rows, test, keys, text, bound)
    ensures |labels| == Distinct(rows, test, keys, text)
  {
    var nums: set<nat> :| LabelledBy(labels, nums, rows, test, keys, text, bound);
    LabelsSize(Ids(rows, test, keys, text), nums);
  }

  // The counters

  /** The first identity key with a value, read key by key. */
  method ReadIdentity(row: Value, keys: seq<string>, text: Value -> string) returns (id: string)
    requires Textual(text)
    ensures id == match Identity(row, keys, text) case Some(value) => value case None => ""
    ensures Identity(row, keys, text).Some? ==> id != ""
  {
    id := "";
    if row.Obj? {
      assert keys[0..] == keys;
      for i := 0 to |keys|
        invariant Identity(row, keys, text) == Identity(row, keys[i..], text)
        invariant id == ""
      {
        if keys[i] in row.fields && !Empty(row.fields[keys[i]]) {
          id := text(row.fields[keys[i]]);
          return;
        }
        assert keys[i..][1..] == keys[i + 1..];
      }
    }
  }

  /** What the message counter keeps. */
  datatype Marks = Marks(seen: set<string>, reaction: set<string>, thread: set<string>, anonymous: nat)

  ghost predicate Marked(marks: Marks, rows: seq<Value>, reacts: Value -> bool, threads: Value -> bool,
      keys: seq<string>, text: Value -> string)
  {
    && Labelled(marks.seen, rows, Every, keys, text, marks.anonymous)
    && Labelled(marks.reaction, rows, reacts, keys, text, marks.anonymous)
    && Labelled(marks.thread, rows, threads, keys, text, marks.anonymous)
  }

  function WithRow(marks: Marks, row: Value, reacts: Value -> bool, threads: Value -> bool, keys: seq<string>,
      text: Value -> string): Marks
  {
    Marks(
      WithLabel(marks.seen, row, Every, keys, text, marks.anonymous),
      WithLabel(marks.reaction, row, reacts, keys, text, marks.anonymous),
      WithLabel(marks.thread, row, threads, keys, text, marks.anonymous),
      NextBound(row, keys, text, marks.anonymous))
  }

  lemma MarkOneMore(marks: Marks, rows: seq<Value>, row: Value, reacts: Value -> bool, threads: Value -> bool,
      keys: seq<string>, text: Value -> string)
    requires Marked(marks, rows, reacts, threads, keys, text)
    ensures Marked(WithRow(marks, row, reacts, threads, keys, text), rows + [row], reacts, threads, keys, text)
  {
    LabelOneMore(marks.seen, rows, row, Every, keys, text, marks.anonymous);
    LabelOneMore(marks.reaction, rows, row, reacts, keys, text, marks.anonymous);
    LabelOneMore(marks.thread, rows, row, threads, keys, text, marks.anonymous);
  }

  lemma NothingMarked(reacts: Value -> bool, threads: Value -> bool, keys: seq<string>, text: Value -> string)
    ensures Marked(Marks({}, {}, {}, 0), [], reacts, threads, keys, text)
  {
    assert LabelledBy({}, {}, [], Every, keys, text, 0);
    assert LabelledBy({}, {}, [], reacts, keys, text, 0);
    assert LabelledBy({}, {}, [], threads, keys, text, 0);
  }

  lemma MarkedSizes(marks: Marks, rows: seq<Value>, reacts: Value -> bool, threads: Value -> bool, keys: seq<string>,
      text: Value -> string)
    requires Marked(marks, rows, reacts, threads, keys, text)
    ensures (|marks.seen|, |marks.reaction|, |marks.thread|) ==
            (Distinct(rows, Every, keys, text), Distinct(rows, reacts, keys, text), Distinct(rows, threads, keys, text))
  {
    LabelledSize(marks.seen, rows, Every, keys, text, marks.anonymous);
    LabelledSize(marks.reaction, rows, reacts, keys, text, marks.anonymous);
    LabelledSize(marks.thread, rows, threads, keys, text, marks.anonymous);
  }

  /** Marks the rows of one page. */
  method MarkPage(marks0: Marks, rows: seq<Value>, reacts: Value -> bool, threads: Value -> bool, keys: seq<string>,
      text: Value -> string,
    ghost before: seq<Value>) returns (marks: Marks)
    requires Textual(text) && Marked(marks0, before, reacts, threads, keys, text)
    ensures Marked(marks, before + rows, reacts, threads, keys, text)
  {
    marks := marks0;
    assert before + rows[..0] == before;
    for j := 0 to |rows|
      invariant Marked(marks, before + rows[..j], reacts, threads, keys, text)
    {
      var row := rows[j];
      MarkOneMore(marks, before + rows[..j], row, reacts, threads, keys, text);
      OneItemMore(before, rows, j);
      marks := MarkRow(marks, row, reacts, threads, keys, text);
    }
    assert rows[..|rows|] == rows;
  }

  /** Marks one row under its identity, or under a number of its own. */
  method MarkRow(marks0: Marks, row: Value, reacts: Value -> bool, threads: Value -> bool, keys: seq<string>,
      text: Value -> string)
    returns (marks: Marks)
    requires Textual(text)
    ensures marks == WithRow(marks0, row, reacts, threads, keys, text)
  {
    var Marks(seen, reaction, thread, anonymous) := marks0;
    var id := ReadIdentity(row, keys, text);
    var tag := "id:" + id;
    if id == "" {
      tag := "anonymous:" + Decimal(anonymous);
      anonymous := anonymous + 1;
    }
    seen := seen + {tag};
    if reacts(row) {
      reaction := reaction + {tag};
    }
    if threads(row) {
      thread := thread + {tag};
    }
    marks := Marks(seen, reaction, thread, anonymous);
  }

  /** Counts the distinct messages of a tool's calls, and those with reactions and those in
      threads among them. */
  method MessageMetrics(calls: seq<Call>, tool: string, paths: seq<seq<string>>, reacts: Value -> bool,
      threads: Value -> bool, keys: seq<string>, text: Value -> string)
    returns (metrics: Option<(nat, nat, nat)>)
    requires Textual(text)
    ensures metrics.Some? <==> AnyPage(calls, tool, paths)
    ensures metrics.Some? ==>
              var rows := AllRows(calls, tool, paths);
              metrics.value == (Distinct(rows, Every, keys, text), Distinct(rows, reacts, keys, text),
                Distinct(rows, threads, keys, text))
  {
    var marks, found := Marks({}, {}, {}, 0), false;
    NothingMarked(reacts, threads, keys, text);
    for i := 0 to |calls|
      invariant found <==> AnyPage(calls[..i], tool, paths)
      invariant Marked(marks, AllRows(calls[..i], tool, paths), reacts, threads, keys, text)
    {
      OneCallMore(calls, i, tool, paths);
      if calls[i].tool != tool {
        continue;
      }
      var rows := RowsAt(calls[i].raw, paths);
      if rows.None? {
        continue;
      }
      found := true;
      marks := MarkPage(marks, rows.value, reacts, threads, keys, text, AllRows(calls[..i], tool, paths));
    }
    assert calls[..|calls|] == calls;
    MarkedSizes(marks, AllRows(calls, tool, paths), reacts, threads, keys, text);
    metrics := if found then Some((|marks.seen|, |marks.reaction|, |marks.thread|)) else None;
  }

  lemma OneCallMore(calls: seq<Call>, i: nat, tool: string, paths: seq<seq<string>>)
    requires i < |calls|
    ensures
      match Page(calls[i], tool, paths)
      case None =>
        && AllRows(calls[..i + 1], tool, paths) == AllRows(calls[..i], tool, paths)
        && (AnyPage(calls[..i + 1], tool, paths) <==> AnyPage(calls[..i], tool, paths))
      case Some(rows) =>
        AllRows(calls[..i + 1], tool, paths) == AllRows(calls[..i], tool, paths) + rows
          && AnyPage(calls[..i + 1], tool, paths)
  {
    var before, after := calls[..i], calls[..i + 1];
    assert after[..i] == before && after[i] == calls[i];
    assert forall j | 0 <= j < i :: after[j] == before[j];
  }

  /** Counts the distinct rows of a tool's calls, with a set of identities and a number of
      rows without one. */
  method CollectionCount(calls: seq<Call>, tool: string, paths: seq<seq<string>>, keys: seq<string>,
      text: Value -> string)
    returns (count: Option<nat>)
    requires Textual(text)
    ensures count.Some? <==> AnyPage(calls, tool, paths)
    ensures count.Some? ==> count.value == Distinct(AllRows(calls, tool, paths), Every, keys, text)
  {
    var seen, anonymous, found := {}, 0, false;
    for i := 0 to |calls|
      invariant found <==> AnyPage(calls[..i], tool, paths)
      invariant seen == Ids(AllRows(calls[..i], tool, paths), Every, keys, text)
      invariant anonymous == Anonymous(AllRows(calls[..i], tool, paths), Every, keys, text)
    {
      OneCallMore(calls, i, tool, paths);
      if calls[i].tool != tool {
        continue;
      }
      var rows := RowsAt(calls[i].raw, paths);
      if rows.None? {
        continue;
      }
      found := true;
      seen, anonymous := CountPage(seen, anonymous, rows.value, keys, text, AllRows(calls[..i], tool, paths));
    }
    assert calls[..|calls|] == calls;
    count := if found then Some(|seen| + anonymous) else None;
  }

  /** Counts the rows of one page. */
  method CountPage(seen0: set<string>, anonymous0: nat, rows: seq<Value>, keys: seq<string>, text: Value -> string,
      ghost before: seq<Value>)
    returns (seen: set<string>, anonymous: nat)
    requires Textual(text)
    requires seen0 == Ids(before, Every, keys, text) && anonymous0 == Anonymous(before, Every, keys, text)
    ensures seen == Ids(before + rows, Every, keys, text) && anonymous == Anonymous(before + rows, Every, keys, text)
  {
    seen, anonymous := seen0, anonymous0;
    assert before + rows[..0] == before;
    for j := 0 to |rows|
      invariant seen == Ids(before + rows[..j], Every, keys, text)
      invariant anonymous == Anonymous(before + rows[..j], Every, keys, text)
    {
      var row := rows[j];
      ghost var done := before + rows[..j];
      OneRowMore(done, row, Every, keys, text);
      OneItemMore(before, rows, j);
      if !row.Obj? {
        anonymous := anonymous + 1;
        continue;
      }
      var id := ReadIdentity(row, keys, text);
      if id != "" {
        seen := seen + {id};
      } else {
        anonymous := anonymous + 1;
      }
    }
    assert rows[..|rows|] == rows;
  }

  // What the count depends on

  lemma {:induction false} AnonymousConcat(a: seq<Value>, b: seq<Value>, test: Value -> bool, keys: seq<string>,
      text: Value -> string)
    ensures Anonymous(a + b, test, keys, text) == Anonymous(a, test, keys, text) + Anonymous(b, test, keys, text)
  {
    if b == [] {
      assert a + b == a;
    } else {
      var rest, last := b[..|b| - 1], b[|b| - 1];
      assert b == rest + [last] && a + b == (a + rest) + [last];
      AnonymousConcat(a, rest, test, keys, text);
      OneRowMore(a + rest, last, test, keys, text);
      OneRowMore(rest, last, test, keys, text);
    }
  }

  lemma {:induction false} AnonymousAnyOrder(rows: seq<Value>, other: seq<Value>, test: Value -> bool,
      keys: seq<string>, text: Value -> string)
    requires multiset(rows) == multiset(other)
    ensures Anonymous(rows, test, keys, text) == Anonymous(other, test, keys, text)
    decreases |rows|
  {
    assert |multiset(rows)| == |rows| && |multiset(other)| == |other|;
    if rows != [] {
      var rest, last := rows[..|rows| - 1], rows[|rows| - 1];
      assert rows == rest + [last];
      var a, b := TakenOut(rows, other);
      AnonymousAnyOrder(rest, a + b, test, keys, text);
      AnonymousConcat(a + [last], b, test, keys, text);
      AnonymousConcat(a, b, test, keys, text);
      OneRowMore(a, last, test, keys, text);
      OneRowMore(rest, last, test, keys, text);
    }
  }

  /** The count does not depend on how the rows are spread over pages, nor on their order. */
  lemma CountIgnoresPages(calls: seq<Call>, other: seq<Call>, tool: string, paths: seq<seq<string>>,
      test: Value -> bool, keys: seq<string>, text: Value -> string)
    requires multiset(AllRows(calls, tool, paths)) == multiset(AllRows(other, tool, paths))
    ensures Distinct(AllRows(calls, tool, paths), test, keys, text) ==
              Distinct(AllRows(other, tool, paths), test, keys, text)
  {
    var rows, rows' := AllRows(calls, tool, paths), AllRows(other, tool, paths);
    AnonymousAnyOrder(rows, rows', test, keys, text);
    assert forall row :: row in rows <==> row in multiset(rows);
    assert forall row :: row in rows' <==> row in multiset(rows');
    assert Ids(rows, test, keys, text) == Ids(rows', test, keys, text);
  }

  /** Another row leaves the count as it is if and only if it fails the test or has an
      identity that was counted already. */
  lemma RepeatsAreFreeIff(rows: seq<Value>, row: Value, test: Value -> bool, keys: seq<string>, text: Value -> string)
    ensures
      Distinct(rows + [row], test, keys, text) == Distinct(rows, test, keys, text) <==>
      (test(row) ==> Identity(row, keys, text).Some? && Identity(row, keys, text).value in Ids(rows, test, keys, text))
  {
    OneRowMore(rows, row, test, keys, text);
    if test(row) && Identity(row, keys, text).Some? {
      OneIdMore(Ids(rows, test, keys, text), Identity(row, keys, text).value);
    }
  }

  lemma OneIdMore(ids: set<string>, id: string)
    ensures |ids + {id}| == |ids| + if id in ids then 0 else 1
  {
    if id in ids {
      assert ids + {id} == ids;
    }
  }

  /** The rows that pass a test, such as those with reactions, are never more than all. */
  lemma {:induction false} TestedAreFewer(rows: seq<Value>, test: Value -> bool, keys: seq<string>,
      text: Value -> string)
    ensures Ids(rows, test, keys, text) <= Ids(rows, Every, keys, text)
    ensures Anonymous(rows, test, keys, text) <= Anonymous(rows, Every, keys, text)
    ensures Distinct(rows, test, keys, text) <= Distinct(rows, Every, keys, text)
  {
    if rows != [] {
      TestedAreFewer(rows[..|rows| - 1], test, keys, text);
    }
    SubsetSize(Ids(rows, test, keys, text), Ids(rows, Every, keys, text));
  }

  lemma SubsetSize(a: set<string>, b: set<string>)
    requires a <= b
    ensures |a| <= |b|
  {
    assert b == a + (b - a);
    assert |b| == |a| + |b - a|;
  }

  // Which rows are read, and by what they are told apart

  /** The identity is the text of the first key that the row has a value for, neither null
      nor empty; without one there is none. */
  lemma {:induction false} IdentityIsFirst(row: Value, keys: seq<string>, text: Value -> string, i: nat)
    requires row.Obj? && i < |keys|
    requires keys[i] in row.fields && row.fields[keys[i]] != Null && row.fields[keys[i]] != Str("")
    requires forall j | 0 <= j < i ::
              keys[j] !in row.fields || row.fields[keys[j]] == Null || row.fields[keys[j]] == Str("")
    ensures Identity(row, keys, text) == Some(text(row.fields[keys[i]]))
  {
    if i > 0 {
      IdentityIsFirst(row, keys[1..], text, i - 1);
    }
  }

  lemma {:induction false} NoIdentity(row: Value, keys: seq<string>, text: Value -> string)
    requires !row.Obj? ||
             forall j | 0 <= j < |keys| ::
               keys[j] !in row.fields || row.fields[keys[j]] == Null || row.fields[keys[j]] == Str("")
    ensures Identity(row, keys, text) == None
  {
    if row.Obj? && keys != [] {
      NoIdentity(row, keys[1..], text);
    }
  }

  /** The rows of a call are at the first of the paths that leads to a list. */
  lemma {:induction false} RowsAreAtFirst(raw: Value, paths: seq<seq<string>>, i: nat)
    requires i < |paths| && AtPath(raw, paths[i]).Some? && forall j | 0 <= j < i :: AtPath(raw, paths[j]).None?
    ensures RowsAt(raw, paths) == AtPath(raw, paths[i])
  {
    if i > 0 {
      RowsAreAtFirst(raw, paths[1..], i - 1);
    }
  }

  /** A path leads through the members of objects to a list. */
  lemma PathLeads(v: Value, part: string, rest: seq<string>)
    requires part != "*"
    ensures AtPath(v, [part] + rest) == if v.Obj? && part in v.fields then AtPath(v.fields[part], rest) else None
    ensures AtPath(v, []) == if v.Arr? then Some(v.items) else None
  {
    assert ([part] + rest)[1..] == rest;
  }

  /** A star gathers what is found behind every item of a list, in their order. */
  lemma StarGathers(items: seq<Value>, last: Value, rest: seq<string>)
    ensures
      var before, all := AtPath(Arr(items), ["*"] + rest), AtPath(Arr(items + [last]), ["*"] + rest);
      && before.Some? && all.Some?
      && all.value == before.value + (if AtPath(last, rest).Some? then AtPath(last, rest).value else [])
      && (items == [] ==> before.value == [])
  {
    assert (["*"] + rest)[1..] == rest;
    assert (items + [last])[..|items|] == items;
  }
}
