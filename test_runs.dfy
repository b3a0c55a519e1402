/**
 * The tally logic of the two test drivers: `run_tests` of test/overall_test.py (select
 * the tests by category and limit, ask the agent each query, count successes and failures
 * overall and per category) and the top-level loop of test/unit_test.py (the same without
 * categories).
 *
 * The agent is a parameter that returns the answer text or the exception it raised; in
 * both drivers it is the chat agent's `ask_tariffwhisperer`.
 */
module TestRuns {
  import opened Wrappers
  import opened PyText
  import opened Scoring
  import opened AnswerPatterns

  /** One entry of `test_queries`: `query`, and the optional `expected` and `category`. */
  datatype TestCase = TestCase(query: string, expected: Option<string>, category: Option<string>)

  /** `ask_tariffwhisperer(query)`: the answer, or the exception it raised. */
  type Agent = string -> Result<string, PyError>

  // ---------------------------------------------------------------------------
  // Selection

  /** `[t for t in tests if t["category"] == c]` over tests that all have a category. */
  function InCategory(tests: seq<TestCase>, c: string): seq<TestCase> {
    if tests == [] then []
    else InCategory(tests[..|tests| - 1], c) + (if tests[|tests| - 1].category == Some(c) then [tests[|tests| - 1]] else [])
  }

  /**
   * The category filter keeps exactly the tests of that category, in their original
   * order: filtering a concatenation is concatenating the filtered parts.
   */
  lemma {:induction false} InCategorySpec(a: seq<TestCase>, b: seq<TestCase>, c: string)
    ensures InCategory(a + b, c) == InCategory(a, c) + InCategory(b, c)
    ensures forall t :: t in InCategory(a, c) <==> t in a && t.category == Some(c)
    ensures |InCategory(a, c)| <= |a|
    decreases |b|
  {
    if b == [] {
      assert a + b == a;
      InCategoryMembers(a, c);
    } else {
      var b' := b[..|b| - 1];
      assert (a + b)[..|a + b| - 1] == a + b';
      InCategorySpec(a, b', c);
    }
  }

  lemma {:induction false} InCategoryMembers(a: seq<TestCase>, c: string)
    ensures forall t :: t in InCategory(a, c) <==> t in a && t.category == Some(c)
    ensures |InCategory(a, c)| <= |a|
  {
    if a != [] {
      var a' := a[..|a| - 1];
      InCategoryMembers(a', c);
      assert a == a' + [a[|a| - 1]];
    }
  }

  /** The `test_set` branch of `run_tests`: no filter, or the category comprehension, which raises KeyError on a test without a category. */
  function Filtered(tests: seq<TestCase>, testSet: Option<string>): Result<seq<TestCase>, PyError> {
    match testSet
    case None => Success(tests)
    case Some(c) =>
      if forall t | t in tests :: t.category.Some? then Success(InCategory(tests, c))
      else Failure(KeyError("category"))
  }

  /** `ts[:l]` for any integer `l`: a negative bound counts from the end. */
  function PyPrefix(ts: seq<TestCase>, l: int): seq<TestCase> {
    if l >= 0 then (if l < |ts| then ts[..l] else ts)
    else if |ts| + l > 0 then ts[..|ts| + l] else []
  }

  /** The `limit` test of `run_tests`: truncate only when the limit is given, non-zero and below the length. */
  function Limited(ts: seq<TestCase>, limit: Option<int>): seq<TestCase> {
    if limit.Some? && limit.value != 0 && limit.value < |ts| then PyPrefix(ts, limit.value) else ts
  }

  /** The tests `run_tests` runs (without shuffling). */
  function Selected(tests: seq<TestCase>, testSet: Option<string>, limit: Option<int>): Result<seq<TestCase>, PyError> {
    match Filtered(tests, testSet)
    case Failure(e) => Failure(e)
    case Success(ts) => Success(Limited(ts, limit))
  }

  /**
   * The limit keeps a prefix: all tests when it is absent, zero or not below the length,
   * the first `l` for a positive `l`, and all but the last `-l` (or none) for a negative one.
   */
  lemma LimitSpec(ts: seq<TestCase>, limit: Option<int>)
    ensures var r := Limited(ts, limit);
      && r == ts[..|r|]
      && (limit.None? || limit.value == 0 || limit.value >= |ts| ==> r == ts)
      && (limit.Some? && 0 < limit.value < |ts| ==> |r| == limit.value)
      && (limit.Some? && limit.value < 0 ==> |r| == if |ts| + limit.value > 0 then |ts| + limit.value else 0)
  {
  }

  /**
   * Selection fails exactly when a category filter meets a test without a category, and
   * otherwise keeps a prefix of the filtered tests, all of the requested category.
   */
  lemma SelectedSpec(tests: seq<TestCase>, testSet: Option<string>, limit: Option<int>)
    ensures Selected(tests, testSet, limit).Failure? <==>
      testSet.Some? && exists t :: t in tests && t.category.None?
    ensures Selected(tests, testSet, limit).Failure? ==> Selected(tests, testSet, limit).error == KeyError("category")
    ensures Selected(tests, testSet, limit).Success? ==>
      var r := Selected(tests, testSet, limit).value;
      && (forall t :: t in r ==> t in tests)
      && (testSet.Some? ==> forall t :: t in r ==> t.category == testSet)
  {
    if Filtered(tests, testSet).Success? {
      var ts := Filtered(tests, testSet).value;
      LimitSpec(ts, limit);
      var r := Limited(ts, limit);
      if testSet.Some? {
        InCategoryMembers(tests, testSet.value);
      }
      forall t | t in r
        ensures t in ts
      {
        var i :| 0 <= i < |r| && r[i] == t;
        assert ts[i] == t;
      }
    }
  }

  // ---------------------------------------------------------------------------
  // The tally of run_tests

  /** `{"success": s, "failure": f}` for one category. */
  datatype Tally = Tally(success: nat, failure: nat)

  function Total(t: Tally): nat {
    t.success + t.failure
  }

  /**
   * The `results` dict: the two counters and the per-category counters, with `order`
   * the insertion order of the category keys.
   */
  datatype Results = Results(success: nat, failure: nat, order: seq<string>, categories: map<string, Tally>)

  const Uncategorized := "Uncategorized"

  /** `test.get("category", "Uncategorized")`. */
  function CategoryOf(t: TestCase): string {
    if t.category.Some? then t.category.value else Uncategorized
  }

  /**
   * Whether a test counts as a success: the agent answered, the answer is not blank, and
   * it is correct when a code is expected (without one, any answer is).
   */
  predicate Passed(ask: Agent, t: TestCase) {
    match ask(t.query)
    case Failure(_) => false
    case Success(answer) => !Blank(answer) && (t.expected.None? || EvaluateAnswer(answer, t.expected).correct)
  }

  /** One test counted: its category is added if new, then one success or one failure, overall and for the category. */
  function Counted(r: Results, category: string, passed: bool): Results {
    var known := category in r.categories;
    var tally := if known then r.categories[category] else Tally(0, 0);
    var order := if known then r.order else r.order + [category];
    if passed then Results(r.success + 1, r.failure, order, r.categories[category := Tally(tally.success + 1, tally.failure)])
    else Results(r.success, r.failure + 1, order, r.categories[category := Tally(tally.success, tally.failure + 1)])
  }

  /** The results after the loop has run `tests`. */
  function Tallied(ask: Agent, tests: seq<TestCase>): Results {
    if tests == [] then Results(0, 0, [], map[])
    else
      var t := tests[|tests| - 1];
      Counted(Tallied(ask, tests[..|tests| - 1]), CategoryOf(t), Passed(ask, t))
  }

  /** `run_tests(test_set, False, limit)`: the selection, then one loop step per test. */
  method RunTests(ask: Agent, tests: seq<TestCase>, testSet: Option<string>, limit: Option<int>) returns (r: Result<Results, PyError>)
    ensures Selected(tests, testSet, limit).Failure? ==> r == Failure(Selected(tests, testSet, limit).error)
    ensures Selected(tests, testSet, limit).Success? ==> r == Success(Tallied(ask, Selected(tests, testSet, limit).value))
  {
    var selected := Selected(tests, testSet, limit);
    if selected.Failure? {
      return Failure(selected.error);
    }
    var toRun := selected.value;
    var results := Results(0, 0, [], map[]);
    for n := 0 to |toRun|
      invariant results == Tallied(ask, toRun[..n])
    {
      assert toRun[..n + 1][..n] == toRun[..n];
      results := RunOne(ask, toRun[n], results);
    }
    assert toRun[..|toRun|] == toRun;
    return Success(results);
  }

  /**
   * A test passes exactly when the agent answers with a non-blank answer and, if a code
   * is expected, a code is found in the answer that agrees with it; with no expected
   * code, `evaluate_answer` is skipped and any non-blank answer passes.
   */
  lemma PassedSpec(ask: Agent, t: TestCase)
    ensures Passed(ask, t) <==>
      && ask(t.query).Success?
      && !Blank(ask(t.query).value)
      && (t.expected.Some? ==>
            ExtractHtsCode(ask(t.query).value).Some? && CodesAgree(ExtractHtsCode(ask(t.query).value).value, t.expected.value))
  {
  }

  /** After a category filter, every test run is counted under that one category. */
  lemma FilteredRunOneCategory(ask: Agent, tests: seq<TestCase>, c: string, limit: Option<int>)
    requires Selected(tests, Some(c), limit).Success?
    ensures forall k :: k in Tallied(ask, Selected(tests, Some(c), limit).value).categories ==> k == c
  {
    var ts := Selected(tests, Some(c), limit).value;
    SelectedSpec(tests, Some(c), limit);
    TalliedKeys(ask, ts);
    assert forall i :: 0 <= i < |ts| ==> ts[i] in ts;
  }

  /** One pass of the loop body of `run_tests`: count one test. */
  method RunOne(ask: Agent, test: TestCase, before: Results) returns (results: Results)
    ensures results == Counted(before, CategoryOf(test), Passed(ask, test))
  {
    results := before;
    var category := CategoryOf(test);
    if category !in results.categories {
      results := results.(order := results.order + [category], categories := results.categories[category := Tally(0, 0)]);
    }
    var tally := results.categories[category];
    ghost var counted := results;
    var answer := ask(test.query);
    if answer.Failure? {
      results := results.(failure := results.failure + 1, categories := results.categories[category := tally.(failure := tally.failure + 1)]);
    } else if Blank(answer.value) {
      results := results.(failure := results.failure + 1, categories := results.categories[category := tally.(failure := tally.failure + 1)]);
    } else {
      var correct := if test.expected.Some? then EvaluateAnswer(answer.value, test.expected).correct else true;
      assert correct == Passed(ask, test);
      if correct {
        results := results.(success := results.success + 1, categories := results.categories[category := tally.(success := tally.success + 1)]);
      } else {
        results := results.(failure := results.failure + 1, categories := results.categories[category := tally.(failure := tally.failure + 1)]);
      }
    }
    CountedAfterInit(before, category, Passed(ask, test), counted, tally);
  }

  /** Counting a test is adding its category if new, then bumping one counter. */
  lemma CountedAfterInit(before: Results, category: string, passed: bool, counted: Results, tally: Tally)
    requires counted.success == before.success && counted.failure == before.failure
    requires category in before.categories ==> counted == before
    requires category !in before.categories ==>
      counted == before.(order := before.order + [category], categories := before.categories[category := Tally(0, 0)])
    requires tally == counted.categories[category]
    ensures Counted(before, category, passed) ==
      if passed then counted.(success := counted.success + 1, categories := counted.categories[category := tally.(success := tally.success + 1)])
      else counted.(failure := counted.failure + 1, categories := counted.categories[category := tally.(failure := tally.failure + 1)])
  {
  }

  /** The tests that count as successes, in order. */
  function Passing(ask: Agent, tests: seq<TestCase>): seq<TestCase> {
    if tests == [] then []
    else Passing(ask, tests[..|tests| - 1]) + (if Passed(ask, tests[|tests| - 1]) then [tests[|tests| - 1]] else [])
  }

  /** The tests counted under category `c`, in order. */
  function OfCategory(tests: seq<TestCase>, c: string): seq<TestCase> {
    if tests == [] then []
    else OfCategory(tests[..|tests| - 1], c) + (if CategoryOf(tests[|tests| - 1]) == c then [tests[|tests| - 1]] else [])
  }

  /** Each test adds exactly one to success or to failure, and to success exactly when it passed. */
  lemma {:induction false} TalliedCounts(ask: Agent, tests: seq<TestCase>)
    ensures Tallied(ask, tests).success + Tallied(ask, tests).failure == |tests|
    ensures Tallied(ask, tests).success == |Passing(ask, tests)|
  {
    if tests != [] {
      TalliedCounts(ask, tests[..|tests| - 1]);
    }
  }

  predicate NoDuplicates(s: seq<string>) {
    forall i, j :: 0 <= i < j < |s| ==> s[i] != s[j]
  }

  /** The categories of the tests, in test order. */
  function CategoriesOf(tests: seq<TestCase>): (cs: seq<string>)
    ensures |cs| == |tests|
  {
    seq(|tests|, i requires 0 <= i < |tests| => CategoryOf(tests[i]))
  }

  /** Each value of `cs` once, in the order of its first occurrence. */
  function FirstSeen(cs: seq<string>): seq<string> {
    if cs == [] then []
    else
      var seen, c := FirstSeen(cs[..|cs| - 1]), cs[|cs| - 1];
      if c in seen then seen else seen + [c]
  }

  /** `x` occurs in `cs` before the first occurrence of `y`. */
  ghost predicate SeenBefore(cs: seq<string>, x: string, y: string) {
    exists p :: 0 <= p < |cs| && cs[p] == x && y !in cs[..p]
  }

  /**
   * First-seen order lists every value of `cs` exactly once, and lists `x` before `y`
   * only when `x` occurs in `cs` before `y` first does.
   */
  lemma {:induction false} FirstSeenSpec(cs: seq<string>)
    ensures var r := FirstSeen(cs);
      && NoDuplicates(r)
      && (forall x :: x in r <==> x in cs)
      && forall i, j :: 0 <= i < j < |r| ==> SeenBefore(cs, r[i], r[j])
  {
    if cs != [] {
      var init, c := cs[..|cs| - 1], cs[|cs| - 1];
      FirstSeenSpec(init);
      var seen := FirstSeen(init);
      assert cs == init + [c];
      forall x, y | SeenBefore(init, x, y)
        ensures SeenBefore(cs, x, y)
      {
        var p :| 0 <= p < |init| && init[p] == x && y !in init[..p];
        assert cs[p] == x && cs[..p] == init[..p];
      }
      if c !in seen {
        var r := seen + [c];
        forall i | 0 <= i < |seen|
          ensures SeenBefore(cs, r[i], c)
        {
          assert seen[i] in seen;
          var p :| 0 <= p < |init| && init[p] == seen[i];
          assert cs[p] == seen[i];
          assert cs[..p] == init[..p];
        }
      }
    }
  }

  /**
   * The category keys are exactly the categories of the tests run, each listed once, in
   * the order in which they first appeared, which is the order of the per-category report.
   */
  lemma {:induction false} TalliedKeys(ask: Agent, tests: seq<TestCase>)
    ensures var r := Tallied(ask, tests);
      && r.order == FirstSeen(CategoriesOf(tests))
      && NoDuplicates(r.order)
      && (forall c :: c in r.categories <==> c in r.order)
      && r.categories.Keys == (set t | t in tests :: CategoryOf(t))
      && forall i, j :: 0 <= i < j < |r.order| ==> SeenBefore(CategoriesOf(tests), r.order[i], r.order[j])
  {
    TalliedOrder(ask, tests);
    TalliedCategories(ask, tests);
    TalliedFirstSeen(ask, tests);
    FirstSeenSpec(CategoriesOf(tests));
  }

  /** A category key is added when its first test is counted, so the keys are in first-seen order. */
  lemma {:induction false} TalliedFirstSeen(ask: Agent, tests: seq<TestCase>)
    ensures Tallied(ask, tests).order == FirstSeen(CategoriesOf(tests))
  {
    if tests != [] {
      var init := tests[..|tests| - 1];
      TalliedFirstSeen(ask, init);
      TalliedOrder(ask, init);
      var cs := CategoriesOf(tests);
      assert cs[..|cs| - 1] == CategoriesOf(init);
    }
  }

  /** The key list holds each key once. */
  lemma {:induction false} TalliedOrder(ask: Agent, tests: seq<TestCase>)
    ensures var r := Tallied(ask, tests);
      && NoDuplicates(r.order)
      && (forall c :: c in r.categories <==> c in r.order)
  {
    if tests != [] {
      var init := tests[..|tests| - 1];
      TalliedOrder(ask, init);
      var t := tests[|tests| - 1];
      var r, c := Tallied(ask, init), CategoryOf(t);
      if c !in r.categories {
        assert Tallied(ask, tests).order == r.order + [c];
      }
    }
  }

  /** The keys are the categories of the tests. */
  lemma {:induction false} TalliedCategories(ask: Agent, tests: seq<TestCase>)
    ensures Tallied(ask, tests).categories.Keys == set t | t in tests :: CategoryOf(t)
  {
    if tests != [] {
      var init, last := tests[..|tests| - 1], tests[|tests| - 1];
      TalliedCategories(ask, init);
      assert tests == init + [last];
      assert (set t | t in tests :: CategoryOf(t)) == (set t | t in init :: CategoryOf(t)) + {CategoryOf(last)};
    }
  }

  /** What one counting step does to the counters of category `c`. */
  lemma CountedAt(r: Results, category: string, passed: bool, c: string)
    ensures var r' := Counted(r, category, passed);
      && (c in r'.categories <==> c in r.categories || c == category)
      && (c != category && c in r.categories ==> r'.categories[c] == r.categories[c])
      && (c == category ==>
            var prior := if c in r.categories then r.categories[c] else Tally(0, 0);
            && r'.categories[c].success + r'.categories[c].failure == prior.success + prior.failure + 1
            && r'.categories[c].success == prior.success + (if passed then 1 else 0))
  {
  }

  /** The counters of a category count exactly the tests of that category, and its successes those that passed. */
  lemma {:induction false} TalliedPerCategory(ask: Agent, tests: seq<TestCase>, c: string)
    requires c in Tallied(ask, tests).categories
    ensures Total(Tallied(ask, tests).categories[c]) == |OfCategory(tests, c)|
    ensures Tallied(ask, tests).categories[c].success == |Passing(ask, OfCategory(tests, c))|
  {
    var init, t := tests[..|tests| - 1], tests[|tests| - 1];
    var r := Tallied(ask, init);
    var before := OfCategory(init, c);
    CountedAt(r, CategoryOf(t), Passed(ask, t), c);
    if c in r.categories {
      TalliedPerCategory(ask, init, c);
    } else {
      UncountedCategoryEmpty(ask, init, c);
    }
    if CategoryOf(t) == c {
      var after := before + [t];
      assert after[..|after| - 1] == before && after[|after| - 1] == t;
      assert OfCategory(tests, c) == after;
      assert Passing(ask, after) == Passing(ask, before) + (if Passed(ask, t) then [t] else []);
    } else {
      assert OfCategory(tests, c) == before + [] == before;
    }
  }

  /** A category with no counters has no tests. */
  lemma {:induction false} UncountedCategoryEmpty(ask: Agent, tests: seq<TestCase>, c: string)
    requires c !in Tallied(ask, tests).categories
    ensures OfCategory(tests, c) == []
  {
    if tests != [] {
      UncountedCategoryEmpty(ask, tests[..|tests| - 1], c);
    }
  }

  /** The sum of the per-category totals, over the categories in `order`. */
  function SumTotals(order: seq<string>, categories: map<string, Tally>): nat {
    if order == [] then 0
    else
      var c := order[|order| - 1];
      SumTotals(order[..|order| - 1], categories) + (if c in categories then Total(categories[c]) else 0)
  }

  /** Changing the counters of a category that is not listed does not change the sum. */
  lemma {:induction false} SumTotalsFrame(order: seq<string>, categories: map<string, Tally>, c: string, t: Tally)
    requires c !in order
    ensures SumTotals(order, categories[c := t]) == SumTotals(order, categories)
  {
    if order != [] {
      SumTotalsFrame(order[..|order| - 1], categories, c, t);
    }
  }

  /** Adding one to the counters of a category listed once adds one to the sum. */
  lemma {:induction false} SumTotalsBump(order: seq<string>, categories: map<string, Tally>, c: string, t: Tally)
    requires NoDuplicates(order) && c in order && c in categories
    requires Total(t) == Total(categories[c]) + 1
    ensures SumTotals(order, categories[c := t]) == SumTotals(order, categories) + 1
  {
    var init := order[..|order| - 1];
    if order[|order| - 1] == c {
      assert c !in init;
      SumTotalsFrame(init, categories, c, t);
    } else {
      assert c in init;
      SumTotalsBump(init, categories, c, t);
    }
  }

  /** The per-category totals add up to the number of tests run. */
  lemma {:induction false} TalliedSum(ask: Agent, tests: seq<TestCase>)
    ensures SumTotals(Tallied(ask, tests).order, Tallied(ask, tests).categories) == |tests|
  {
    if tests != [] {
      var init := tests[..|tests| - 1];
      var t := tests[|tests| - 1];
      var r, c := Tallied(ask, init), CategoryOf(t);
      TalliedSum(ask, init);
      TalliedKeys(ask, init);
      var r' := Tallied(ask, tests);
      if c in r.categories {
        SumTotalsBump(r.order, r.categories, c, r'.categories[c]);
      } else {
        var zeroed := r.categories[c := Tally(0, 0)];
        SumTotalsFrame(r.order, r.categories, c, Tally(0, 0));
        SumTotalsFrame(r.order, r.categories, c, r'.categories[c]);
        assert r'.order == r.order + [c];
        assert (r.order + [c])[..|r.order|] == r.order;
      }
    }
  }

  // ---------------------------------------------------------------------------
  // The loop of test/unit_test.py

  /** One entry of its `test_queries`: `query` and the optional `expected`. */
  datatype UnitCase = UnitCase(query: string, expected: Option<string>)

  /** `if expected`: the code is given and is not the empty string. */
  predicate ExpectedGiven(expected: Option<string>) {
    expected.Some? && expected.value != []
  }

  /** A test counts as a success when the answer is not blank and, if a code is expected, correct. */
  predicate UnitPassed(ask: Agent, t: UnitCase) {
    match ask(t.query)
    case Failure(_) => false
    case Success(answer) => !Blank(answer) && (!ExpectedGiven(t.expected) || EvaluateAnswerUnit(answer, t.expected.value).correct)
  }

  /**
   * A unit test passes exactly when the agent answers with a non-blank answer and, if the
   * expected code is truthy, a code is found that agrees with it; a missing or empty
   * expected code skips the evaluation.
   */
  lemma UnitPassedSpec(ask: Agent, t: UnitCase)
    ensures UnitPassed(ask, t) <==>
      && ask(t.query).Success?
      && !Blank(ask(t.query).value)
      && (ExpectedGiven(t.expected) ==>
            ExtractHtsCode(ask(t.query).value).Some? && CodesAgree(ExtractHtsCode(ask(t.query).value).value, t.expected.value))
  {
  }

  /** The unit tests that count as successes, in order. */
  function UnitPassing(ask: Agent, tests: seq<UnitCase>): seq<UnitCase> {
    if tests == [] then []
    else UnitPassing(ask, tests[..|tests| - 1]) + (if UnitPassed(ask, tests[|tests| - 1]) then [tests[|tests| - 1]] else [])
  }

  /**
   * The top-level loop: every query adds one to exactly one counter, so the counters add
   * up to the number of queries, and the successes are the queries that passed.
   */
  method UnitRun(ask: Agent, tests: seq<UnitCase>) returns (success: nat, failure: nat)
    ensures success == |UnitPassing(ask, tests)|
    ensures success + failure == |tests|
  {
    success, failure := 0, 0;
    for n := 0 to |tests|
      invariant success == |UnitPassing(ask, tests[..n])|
      invariant success + failure == n
    {
      var test := tests[n];
      assert tests[..n + 1][..n] == tests[..n];
      var answer := ask(test.query);
      if answer.Failure? {
        failure := failure + 1;
      } else if Blank(answer.value) {
        failure := failure + 1;
      } else {
        var correct := if ExpectedGiven(test.expected) then EvaluateAnswerUnit(answer.value, test.expected.value).correct else true;
        if correct {
          success := success + 1;
        } else {
          failure := failure + 1;
        }
      }
    }
    assert tests[..|tests|] == tests;
  }

  /**
   * With a non-empty expected code the two drivers score a query alike; with no code,
   * both accept any answer that is not blank.
   */
  lemma DriversAgree(ask: Agent, query: string, expected: Option<string>, category: Option<string>)
    requires expected.None? || expected.value != []
    ensures UnitPassed(ask, UnitCase(query, expected)) == Passed(ask, TestCase(query, expected, category))
  {
  }
}
