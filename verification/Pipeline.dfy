/** A direct-request job: tasks run in order over a map of named results. */
module Pipeline {
  import opened Basics

  datatype Task = Task(name: string, kind: string, url: string, input: string, path: string, factor: real)

  type Results = map<string, Json>

  /** What the tasks call: an HTTP GET, parsing a JSON object, parsing a float, printing a value. */
  datatype Lib = Lib(
    fetch: string -> Option<string>,
    parseObject: string -> Option<map<string, Json>>,
    parseFloat: string -> Option<real>,
    show: Json -> string)

  const MEAN: string := "mean"

  // ---- One task ----

  function NumberIn(results: Results, name: string, lib: Lib): Option<real> {
    if name !in results then None
    else match results[name]
      case Number(x) => Some(x)
      case Text(s) => lib.parseFloat(s)
      case _ => None
  }

  function Times(x: real, y: real): real {
    x * y
  }

  /** The value a task stores under its name; None when the task fails or, as for "log", stores nothing. */
  function Output(t: Task, results: Results, lib: Lib): Option<Json> {
    if t.kind == "http" then
      match lib.fetch(t.url)
      case Some(body) => Some(Text(body))
      case None => None
    else if t.kind == "json" then
      if t.input in results && results[t.input].Text? then Member(lib.parseObject(results[t.input].s), t.path) else None
    else if t.kind == "math" then
      match NumberIn(results, t.input, lib)
      case Some(x) => Some(Number(Times(x, t.factor)))
      case None => None
    else None
  }

  function Member(parsed: Option<map<string, Json>>, key: string): Option<Json> {
    if parsed.Some? && key in parsed.value then Some(parsed.value[key]) else None
  }

  predicate Stores(t: Task) {
    t.kind == "http" || t.kind == "json" || t.kind == "math"
  }

  function Executed(t: Task, results: Results, lib: Lib): Option<Results> {
    if Stores(t) then
      match Output(t, results, lib)
      case Some(v) => Some(results[t.name := v])
      case None => None
    else if t.kind == "log" then Some(results)
    else None
  }

  // ---- A run ----

  /** Whether all tasks succeed when the context is done after `budget` of them, and the results stored by then. */
  function RunFrom(tasks: seq<Task>, results: Results, lib: Lib, budget: nat): (bool, Results) {
    if tasks == [] then (true, results)
    else if budget == 0 then (false, results)
    else match Executed(tasks[0], results, lib)
      case None => (false, results)
      case Some(r) => RunFrom(tasks[1..], r, lib, budget - 1)
  }

  /** The input is the text of an object with the member that the task asks for. */
  predicate ReadsMember(t: Task, results: Results, lib: Lib) {
    t.input in results && results[t.input].Text? &&
    lib.parseObject(results[t.input].s).Some? && t.path in lib.parseObject(results[t.input].s).value
  }

  /** The input is a number or the text of one. */
  predicate ReadsNumber(t: Task, results: Results, lib: Lib) {
    t.input in results &&
    (results[t.input].Number? || (results[t.input].Text? && lib.parseFloat(results[t.input].s).Some?))
  }

  class DirectRequest {
    const tasks: seq<Task>
    const strategy: string
    var results: Results
    var assembler: bool  // whether a report assembler is attached

    constructor (tasks: seq<Task>, strategy: string)
      ensures this.tasks == tasks && this.strategy == strategy && results == map[] && !assembler
    {
      this.tasks, this.strategy := tasks, strategy;
      results, assembler := map[], false;
    }

    method Execute(t: Task, lib: Lib) returns (ok: bool)
      modifies this`results
      ensures match Executed(t, old(results), lib)
              case Some(r) => ok && results == r
              case None => !ok && results == old(results)
      ensures !ok ==> results == old(results)
      ensures t.kind == "http" ==> (ok <==> lib.fetch(t.url).Some?)
      ensures t.kind == "http" && ok ==> results == old(results)[t.name := Text(lib.fetch(t.url).value)]
      ensures t.kind == "json" ==> (ok <==> ReadsMember(t, old(results), lib))
      ensures t.kind == "json" && ok ==>
                results == old(results)[t.name := lib.parseObject(old(results)[t.input].s).value[t.path]]
      ensures t.kind == "math" ==> (ok <==> ReadsNumber(t, old(results), lib))
      ensures t.kind == "log" ==> ok && results == old(results)
      ensures t.kind !in {"http", "json", "math", "log"} ==> !ok
    {
      ok := false;
      if t.kind == "http" {
        var body := lib.fetch(t.url);
        if body.Some? {
          results := results[t.name := Text(body.value)];
          ok := true;
        }
      } else if t.kind == "json" {
        if t.input in results && results[t.input].Text? {
          var value := Member(lib.parseObject(results[t.input].s), t.path);
          if value.Some? {
            results := results[t.name := value.value];
            ok := true;
          }
        }
      } else if t.kind == "math" {
        var input := NumberIn(results, t.input, lib);
        if input.Some? {
          results := results[t.name := Number(Times(input.value, t.factor))];
          ok := true;
        }
      } else if t.kind == "log" {
        ok := true;
      }
    }

    /** `Run`: all tasks in order, then the reporting strategy; `budget` tasks start before the context is done. */
    method Run(lib: Lib, budget: nat) returns (ok: bool)
      modifies this
      ensures results == RunFrom(tasks, old(results), lib, budget).1
      ensures ok <==> RunFrom(tasks, old(results), lib, budget).0 && strategy == MEAN
      ensures assembler == (ok || old(assembler))
    {
      for i := 0 to |tasks|
        invariant i <= budget && assembler == old(assembler)
        invariant RunFrom(tasks[i..], results, lib, budget - i) == RunFrom(tasks, old(results), lib, budget)
      {
        assert tasks[i..][0] == tasks[i] && tasks[i..][1..] == tasks[i + 1..];
        if i == budget {
          return false;
        }
        var done := Execute(tasks[i], lib);
        if !done {
          return false;
        }
      }
      if strategy != MEAN {
        return false;
      }
      assembler := true;
      return true;
    }

    /** `Result`: the printed value stored under the last task's name. */
    method Result(lib: Lib) returns (r: Option<string>)
      requires tasks != []
      ensures r == ResultOf(tasks, results, lib)
    {
      var name := tasks[|tasks| - 1].name;
      r := if name in results then Some(lib.show(results[name])) else None;
    }
  }

  function ResultOf(tasks: seq<Task>, results: Results, lib: Lib): Option<string>
    requires tasks != []
  {
    var name := tasks[|tasks| - 1].name;
    if name in results then Some(lib.show(results[name])) else None
  }

  // ---- What a pipeline computes ----

  lemma FetchStores(t: Task, results: Results, lib: Lib)
    requires t.kind == "http" && lib.fetch(t.url).Some?
    ensures Executed(t, results, lib) == Some(results[t.name := Text(lib.fetch(t.url).value)])
  {
  }

  lemma MemberStored(t: Task, results: Results, lib: Lib, body: string, members: map<string, Json>)
    requires t.kind == "json" && t.input in results && results[t.input] == Text(body)
    requires lib.parseObject(body) == Some(members) && t.path in members
    ensures Executed(t, results, lib) == Some(results[t.name := members[t.path]])
  {
  }

  lemma ProductStored(t: Task, results: Results, lib: Lib, x: real)
    requires t.kind == "math" && t.input in results
    requires results[t.input] == Number(x) || (results[t.input].Text? && lib.parseFloat(results[t.input].s) == Some(x))
    ensures Executed(t, results, lib) == Some(results[t.name := Number(x * t.factor)])
  {
    TimesIsProduct(x, t.factor);
    assert Output(t, results, lib) == Some(Number(Times(x, t.factor)));
  }

  lemma TimesIsProduct(x: real, y: real)
    ensures Times(x, y) == x * y
  {
  }

  lemma RunOfThree(a: Task, b: Task, c: Task, r0: Results, r1: Results, r2: Results, r3: Results, lib: Lib)
    requires Executed(a, r0, lib) == Some(r1) && Executed(b, r1, lib) == Some(r2) && Executed(c, r2, lib) == Some(r3)
    ensures RunFrom([a, b, c], r0, lib, 3) == (true, r3)
  {
    assert [a, b, c][1..] == [b, c] && [b, c][1..] == [c] && [c][1..] == [];
    assert RunFrom([], r3, lib, 0) == (true, r3);
    assert RunFrom([c], r2, lib, 1) == (true, r3);
    assert RunFrom([b, c], r1, lib, 2) == (true, r3);
  }

  /** Fetching a document, picking a member and multiplying it, one after the other: the result shows the product of the
      fetched number and the factor, whatever was stored before. */
  lemma FetchedProduct(http: Task, json: Task, math: Task, results: Results, lib: Lib, body: string,
                       members: map<string, Json>, x: real)
    requires http.kind == "http" && lib.fetch(http.url) == Some(body)
    requires json.kind == "json" && json.input == http.name
    requires lib.parseObject(body) == Some(members) && json.path in members
    requires members[json.path] == Number(x)
             || (members[json.path].Text? && lib.parseFloat(members[json.path].s) == Some(x))
    requires math.kind == "math" && math.input == json.name
    ensures var run := RunFrom([http, json, math], results, lib, 3);
            run.0 && ResultOf([http, json, math], run.1, lib) == Some(lib.show(Number(x * math.factor)))
  {
    var r1 := results[http.name := Text(body)];
    var r2 := r1[json.name := members[json.path]];
    var r3 := r2[math.name := Number(x * math.factor)];
    FetchStores(http, results, lib);
    MemberStored(json, r1, lib, body, members);
    ProductStored(math, r2, lib, x);
    RunOfThree(http, json, math, results, r1, r2, r3, lib);
  }

  // ---- What a result is ----

  /** Task `i` stores under `name`, and no later task does. */
  predicate LastStore(tasks: seq<Task>, name: string, i: nat) {
    && i < |tasks| && Stores(tasks[i]) && tasks[i].name == name
    && forall k :: i < k < |tasks| ==> !(Stores(tasks[k]) && tasks[k].name == name)
  }

  lemma LastStoreStep(front: seq<Task>, t: Task, name: string, i: nat)
    ensures LastStore(front + [t], name, i)
            <==> if i == |front| then Stores(t) && t.name == name
                 else LastStore(front, name, i) && !(Stores(t) && t.name == name)
  {
    assert (front + [t])[|front|] == t;
    if LastStore(front + [t], name, i) && i < |front| {
      forall k | i < k < |front| ensures !(Stores(front[k]) && front[k].name == name) {
        assert front[k] == (front + [t])[k];
      }
    }
  }

  /** Task `i` put its output under `name`. */
  predicate Put(tasks: seq<Task>, i: nat, results: Results, lib: Lib, budget: nat, name: string, after: Results)
    requires i < |tasks|
  {
    name in after && Some(after[name]) == Output(tasks[i], RunFrom(tasks[..i], results, lib, budget).1, lib)
  }

  /** After a successful run, what is stored under a name is the output of the last task that stores under it, computed
      from what the tasks before that one had stored; a name under which no task stores keeps its value. */
  lemma {:induction false} StoredIsLastOutput(tasks: seq<Task>, results: Results, lib: Lib, budget: nat, name: string)
    requires RunFrom(tasks, results, lib, budget).0
    ensures forall i: nat :: LastStore(tasks, name, i) ==>
              Put(tasks, i, results, lib, budget, name, RunFrom(tasks, results, lib, budget).1)
    ensures (forall i: nat :: !LastStore(tasks, name, i)) ==>
              Same(RunFrom(tasks, results, lib, budget).1, results, {name})
  {
    if tasks != [] {
      var front, t := tasks[..|tasks| - 1], tasks[|tasks| - 1];
      assert tasks == front + [t];
      RunSnoc(front, t, results, lib, budget);
      StoredIsLastOutput(front, results, lib, budget, name);
      forall i: nat ensures LastStore(tasks, name, i) <==> if i == |front| then Stores(t) && t.name == name
                            else LastStore(front, name, i) && !(Stores(t) && t.name == name)
      {
        LastStoreStep(front, t, name, i);
      }
      forall i: nat | LastStore(tasks, name, i)
        ensures Put(tasks, i, results, lib, budget, name, RunFrom(tasks, results, lib, budget).1)
      {
        assert tasks[..i] == front[..i];
      }
      if forall i: nat :: !LastStore(tasks, name, i) {
        assert !LastStore(tasks, name, |front|);
        forall i: nat ensures !LastStore(front, name, i) {
          assert !LastStore(tasks, name, i);
        }
      }
    }
  }

  /** What `Result` prints after a successful run of a new job: the output of the last task that stores under the last
      task's name; it fails iff there is none, which takes a last task that stores nothing. */
  lemma ResultIsLastOutput(tasks: seq<Task>, lib: Lib, budget: nat)
    requires tasks != [] && RunFrom(tasks, map[], lib, budget).0
    ensures var name, r := tasks[|tasks| - 1].name, ResultOf(tasks, RunFrom(tasks, map[], lib, budget).1, lib);
            && (forall i: nat :: LastStore(tasks, name, i) ==>
                  exists v :: Output(tasks[i], RunFrom(tasks[..i], map[], lib, budget).1, lib) == Some(v)
                              && r == Some(lib.show(v)))
            && (r == None <==> forall i: nat :: !LastStore(tasks, name, i))
            && (r == None ==> !Stores(tasks[|tasks| - 1]))
  {
    var name := tasks[|tasks| - 1].name;
    StoredIsLastOutput(tasks, map[], lib, budget, name);
    if Stores(tasks[|tasks| - 1]) {
      assert LastStore(tasks, name, |tasks| - 1);
    }
  }

  // ---- Slicing ----

  /** The results a storing task reads. */
  function Reads(t: Task): set<string> {
    if t.kind == "json" || t.kind == "math" then {t.input} else {}
  }

  /** The tasks, in order, that the values of `names` depend on, directly or through other tasks. */
  function Slice(tasks: seq<Task>, names: set<string>): seq<Task> {
    if tasks == [] then [] else
      var front, t := tasks[..|tasks| - 1], tasks[|tasks| - 1];
      if Stores(t) && t.name in names
      then Slice(front, (names - {t.name}) + Reads(t)) + [t]
      else Slice(front, names)
  }

  /** The last task with the tasks its result depends on; a "log" task stores nothing, so what it reports is whatever
      an earlier task stored under its name. */
  function Sliced(tasks: seq<Task>): seq<Task>
    requires tasks != []
  {
    var front, last := tasks[..|tasks| - 1], tasks[|tasks| - 1];
    Slice(front, if Stores(last) then Reads(last) else {last.name}) + [last]
  }

  /** No task strictly between `i` and `k` stores under `name`. */
  predicate Untouched(tasks: seq<Task>, name: string, i: int, k: int)
    requires -1 <= i && k <= |tasks|
  {
    forall j :: i < j < k ==> !(Stores(tasks[j]) && tasks[j].name == name)
  }

  /** What task `i` stores is still there at the end under one of `names`, or when a needed task reads it. */
  ghost predicate Needed(tasks: seq<Task>, names: set<string>, i: int)
    requires 0 <= i < |tasks|
    decreases |tasks| - i
  {
    Stores(tasks[i]) &&
    ((tasks[i].name in names && Untouched(tasks, tasks[i].name, i, |tasks|))
     || exists k :: i < k < |tasks| && Needed(tasks, names, k) && tasks[i].name in Reads(tasks[k])
                    && Untouched(tasks, tasks[i].name, i, k))
  }

  /** The names that must be right before the last task, for `names` to be right after it. */
  function Before(t: Task, names: set<string>): set<string> {
    if Stores(t) && t.name in names then (names - {t.name}) + Reads(t) else names
  }

  lemma {:induction false} NeededInFront(front: seq<Task>, t: Task, names: set<string>, i: int)
    requires 0 <= i < |front|
    ensures Needed(front + [t], names, i) <==> Needed(front, Before(t, names), i)
    decreases |front| - i
  {
    var tasks, last, n := front + [t], |front|, front[i].name;
    assert tasks[i] == front[i] && tasks[last] == t;
    assert forall k :: 0 <= k < last ==> tasks[k] == front[k];
    forall k | i < k < last ensures Needed(tasks, names, k) <==> Needed(front, Before(t, names), k) {
      NeededInFront(front, t, names, k);
    }
    assert Needed(tasks, names, last) <==> Stores(t) && t.name in names;
    forall k | i < k <= last ensures Untouched(tasks, n, i, k) <==> Untouched(front, n, i, k) {
    }
    assert Untouched(tasks, n, i, last + 1) <==> Untouched(front, n, i, last) && !(Stores(t) && t.name == n);
  }

  /** The needed tasks, in order. */
  ghost function NeededTasks(tasks: seq<Task>, names: set<string>, k: nat): seq<Task>
    requires k <= |tasks|
  {
    if k == 0 then [] else
      NeededTasks(tasks, names, k - 1) + if Needed(tasks, names, k - 1) then [tasks[k - 1]] else []
  }

  lemma {:induction false} NeededPrefix(front: seq<Task>, t: Task, names: set<string>, k: nat)
    requires k <= |front|
    ensures NeededTasks(front + [t], names, k) == NeededTasks(front, Before(t, names), k)
  {
    if k > 0 {
      NeededPrefix(front, t, names, k - 1);
      NeededInFront(front, t, names, k - 1);
    }
  }

  /** A slice holds exactly the tasks that are needed, no fewer and no more. */
  lemma {:induction false} SliceIsNeeded(tasks: seq<Task>, names: set<string>)
    ensures Slice(tasks, names) == NeededTasks(tasks, names, |tasks|)
  {
    if tasks != [] {
      var front, t := tasks[..|tasks| - 1], tasks[|tasks| - 1];
      assert tasks == front + [t];
      SliceIsNeeded(front, Before(t, names));
      NeededPrefix(front, t, names, |front|);
      assert Needed(tasks, names, |front|) <==> Stores(t) && t.name in names;
    }
  }

  predicate Same(a: Results, b: Results, names: set<string>) {
    forall x :: x in names ==> (x in a <==> x in b) && (x in a ==> a[x] == b[x])
  }

  lemma {:induction false} RunSnoc(tasks: seq<Task>, t: Task, results: Results, lib: Lib, budget: nat)
    ensures var before := RunFrom(tasks, results, lib, budget);
            RunFrom(tasks + [t], results, lib, budget)
            == if !before.0 || budget <= |tasks| then (false, before.1)
               else match Executed(t, before.1, lib)
                    case None => (false, before.1)
                    case Some(r) => (true, r)
  {
    if tasks == [] {
      assert ([t])[1..] == [];
    } else {
      assert (tasks + [t])[0] == tasks[0] && (tasks + [t])[1..] == tasks[1..] + [t];
      if budget > 0 {
        match Executed(tasks[0], results, lib)
        case None =>
        case Some(r) => RunSnoc(tasks[1..], t, r, lib, budget - 1);
      }
    }
  }

  lemma {:induction false} SliceLength(tasks: seq<Task>, names: set<string>)
    ensures |Slice(tasks, names)| <= |tasks|
  {
    if tasks != [] {
      var front, t := tasks[..|tasks| - 1], tasks[|tasks| - 1];
      SliceLength(front, (names - {t.name}) + Reads(t));
      SliceLength(front, names);
    }
  }

  lemma OutputDepends(t: Task, a: Results, b: Results, lib: Lib)
    requires Stores(t) && Same(a, b, Reads(t))
    ensures Output(t, a, lib) == Output(t, b, lib)
  {
    if t.kind != "http" {
      assert t.input in Reads(t);
    }
  }

  lemma {:induction false} SuccessWithinBudget(tasks: seq<Task>, results: Results, lib: Lib, budget: nat)
    requires RunFrom(tasks, results, lib, budget).0
    ensures |tasks| <= budget
  {
    if tasks != [] {
      SuccessWithinBudget(tasks[1..], Executed(tasks[0], results, lib).value, lib, budget - 1);
    }
  }

  /** A run that succeeds still succeeds on the slice for `names`, from any results that agree on what the slice may
      read at the start, and stores the same values under `names`. */
  lemma {:induction false} SlicePreserves(tasks: seq<Task>, names: set<string>, results: Results, lib: Lib, budget: nat)
    requires RunFrom(tasks, results, lib, budget).0
    ensures RunFrom(Slice(tasks, names), results, lib, budget).0
    ensures Same(RunFrom(tasks, results, lib, budget).1, RunFrom(Slice(tasks, names), results, lib, budget).1, names)
  {
    if tasks != [] {
      var front, t := tasks[..|tasks| - 1], tasks[|tasks| - 1];
      assert tasks == front + [t];
      RunSnoc(front, t, results, lib, budget);
      if Stores(t) && t.name in names {
        var needed := (names - {t.name}) + Reads(t);
        SlicePreserves(front, needed, results, lib, budget);
        SliceStep(front, t, needed, results, lib, budget);
      } else {
        SlicePreserves(front, names, results, lib, budget);
      }
    }
  }

  /** Running `t` after the front and after its slice gives the same value, and keeps what the slice agrees on. */
  lemma SliceStep(front: seq<Task>, t: Task, needed: set<string>, results: Results, lib: Lib, budget: nat)
    requires RunFrom(front + [t], results, lib, budget).0 && Stores(t) && Reads(t) <= needed
    requires RunFrom(Slice(front, needed), results, lib, budget).0
    requires Same(RunFrom(front, results, lib, budget).1, RunFrom(Slice(front, needed), results, lib, budget).1, needed)
    ensures RunFrom(Slice(front, needed) + [t], results, lib, budget).0
    ensures Same(RunFrom(front + [t], results, lib, budget).1,
                 RunFrom(Slice(front, needed) + [t], results, lib, budget).1, needed + {t.name})
  {
    RunSnoc(front, t, results, lib, budget);
    RunSnoc(Slice(front, needed), t, results, lib, budget);
    SuccessWithinBudget(front + [t], results, lib, budget);
    SliceLength(front, needed);
    var whole, sliced := RunFrom(front, results, lib, budget).1, RunFrom(Slice(front, needed), results, lib, budget).1;
    OutputDepends(t, whole, sliced, lib);
  }

  /** Slicing: if a run succeeds, running only the tasks the last task depends on, in order, succeeds too and gives the
      same result. Task names need not be distinct. */
  lemma SlicedRunSameResult(tasks: seq<Task>, results: Results, lib: Lib, budget: nat)
    requires tasks != [] && RunFrom(tasks, results, lib, budget).0
    ensures RunFrom(Sliced(tasks), results, lib, budget).0
    ensures ResultOf(Sliced(tasks), RunFrom(Sliced(tasks), results, lib, budget).1, lib)
            == ResultOf(tasks, RunFrom(tasks, results, lib, budget).1, lib)
  {
    var front, t := tasks[..|tasks| - 1], tasks[|tasks| - 1];
    assert tasks == front + [t];
    var needed := if Stores(t) then Reads(t) else {t.name};
    RunSnoc(front, t, results, lib, budget);
    SlicePreserves(front, needed, results, lib, budget);
    if Stores(t) {
      SliceStep(front, t, needed, results, lib, budget);
    } else {
      RunSnoc(Slice(front, needed), t, results, lib, budget);
      SuccessWithinBudget(tasks, results, lib, budget);
      SliceLength(front, needed);
    }
  }

  lemma PrefixSucceeds(front: seq<Task>, t: Task, results: Results, lib: Lib, budget: nat)
    ensures RunFrom(front + [t], results, lib, budget).0 ==> RunFrom(front, results, lib, budget).0
  {
    RunSnoc(front, t, results, lib, budget);
  }

  /** If the tasks before `t` and the slice of `t` succeed, so does the run with `t`. */
  lemma LastTaskSucceeds(front: seq<Task>, t: Task, results: Results, lib: Lib, budget: nat)
    requires RunFrom(front, results, lib, budget).0 && |front| < budget
    requires RunFrom(Sliced(front + [t]), results, lib, budget).0
    ensures RunFrom(front + [t], results, lib, budget).0
  {
    assert (front + [t])[..|front|] == front;
    var needed := if Stores(t) then Reads(t) else {t.name};
    RunSnoc(front, t, results, lib, budget);
    RunSnoc(Slice(front, needed), t, results, lib, budget);
    SlicePreserves(front, needed, results, lib, budget);
    if Stores(t) {
      var whole := RunFrom(front, results, lib, budget).1;
      var sliced := RunFrom(Slice(front, needed), results, lib, budget).1;
      OutputDepends(t, whole, sliced, lib);
    }
  }

  /** Task `i` succeeds when run with only the tasks it depends on. */
  predicate SliceSucceeds(tasks: seq<Task>, i: nat, results: Results, lib: Lib, budget: nat)
    requires i < |tasks|
  {
    RunFrom(Sliced(tasks[..i + 1]), results, lib, budget).0
  }

  lemma SliceOfFront(front: seq<Task>, t: Task, i: nat, results: Results, lib: Lib, budget: nat)
    requires i < |front|
    ensures SliceSucceeds(front + [t], i, results, lib, budget) <==> SliceSucceeds(front, i, results, lib, budget)
  {
    assert (front + [t])[..i + 1] == front[..i + 1];
  }

  lemma LastSlice(front: seq<Task>, t: Task, results: Results, lib: Lib, budget: nat)
    requires |front| < budget
    ensures RunFrom(front + [t], results, lib, budget).0
            <==> RunFrom(front, results, lib, budget).0 && SliceSucceeds(front + [t], |front|, results, lib, budget)
  {
    var tasks := front + [t];
    assert tasks[..|front| + 1] == tasks;
    PrefixSucceeds(front, t, results, lib, budget);
    if RunFrom(tasks, results, lib, budget).0 {
      SlicedRunSameResult(tasks, results, lib, budget);
    } else if RunFrom(front, results, lib, budget).0 && RunFrom(Sliced(tasks), results, lib, budget).0 {
      LastTaskSucceeds(front, t, results, lib, budget);
    }
  }

  /** Exactly when a run succeeds: iff the context outlasts the tasks and every task succeeds when run with only the
      tasks it depends on. */
  lemma {:induction false} SucceedsIffSlicesDo(tasks: seq<Task>, results: Results, lib: Lib, budget: nat)
    ensures RunFrom(tasks, results, lib, budget).0
            <==> |tasks| <= budget && forall i :: 0 <= i < |tasks| ==> SliceSucceeds(tasks, i, results, lib, budget)
  {
    if RunFrom(tasks, results, lib, budget).0 {
      SuccessWithinBudget(tasks, results, lib, budget);
    }
    if tasks != [] && |tasks| <= budget {
      var front, t := tasks[..|tasks| - 1], tasks[|tasks| - 1];
      assert tasks == front + [t];
      SucceedsIffSlicesDo(front, results, lib, budget);
      LastSlice(front, t, results, lib, budget);
      forall i | 0 <= i < |front|
        ensures SliceSucceeds(tasks, i, results, lib, budget) <==> SliceSucceeds(front, i, results, lib, budget)
      {
        SliceOfFront(front, t, i, results, lib, budget);
      }
    }
  }

  /** An instance: the slice of the last task succeeds, but a task outside it fails the run. */
  lemma UnusedTaskCanFail(lib: Lib, bad: Task, good: Task)
    requires bad.kind == "http" && lib.fetch(bad.url).None?
    requires good.kind == "http" && lib.fetch(good.url).Some?
    ensures Sliced([bad, good]) == [good]
    ensures RunFrom(Sliced([bad, good]), map[], lib, 2).0 && !RunFrom([bad, good], map[], lib, 2).0
  {
    assert [bad, good][..1] == [bad] && [bad][..0] == [] && [good][1..] == [];
    assert Slice([], {}) == [];
    assert Slice([bad], {}) == [];
  }
}
