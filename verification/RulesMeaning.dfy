/** What evaluating rules means, from the rules' texts to the plan: which rules are run and
    in what order, when each predicate holds, and what the run leaves. */
module RulesMeaning {
  import opened Wrappers
  import opened Text
  import SF = SmartFilter
  import Grammar = SmartFilterAccepts
  import opened Rules

  // ----------------------------------------------------------------------
  // The order rules run in
  // ----------------------------------------------------------------------

  /** By priority, and among equals as given. */
  ghost predicate Earlier(rules: seq<Rule>, a: nat, b: nat)
    requires a < |rules| && b < |rules|
  {
    rules[a].priority < rules[b].priority || (rules[a].priority == rules[b].priority && a < b)
  }

  ghost predicate Positions(rules: seq<Rule>, order: seq<nat>) {
    forall k :: 0 <= k < |order| ==> order[k] < |rules|
  }

  ghost predicate InTurn(rules: seq<Rule>, order: seq<nat>)
    requires Positions(rules, order)
  {
    forall k, l :: 0 <= k < l < |order| ==> Earlier(rules, order[k], order[l])
  }

  /** `order` lists the positions of the enabled rules, each once, in the order they run. */
  ghost predicate RunOrder(rules: seq<Rule>, order: seq<nat>) {
    && Positions(rules, order) && InTurn(rules, order)
    && (forall i: nat :: i in order <==> i < |rules| && rules[i].enabled)
  }

  ghost function Picked(rules: seq<Rule>, order: seq<nat>): seq<Rule>
    requires Positions(rules, order)
  {
    seq(|order|, k requires 0 <= k < |order| => rules[order[k]])
  }

  lemma {:induction false} OrderUnique(rules: seq<Rule>, a: seq<nat>, b: seq<nat>)
    requires Positions(rules, a) && Positions(rules, b) && InTurn(rules, a) && InTurn(rules, b)
    requires forall i: nat :: i in a <==> i in b
    ensures a == b
    decreases |a|
  {
    assert b != [] ==> b[0] in b;
    if a != [] {
      assert a[0] in a;
      var x, y := a[|a| - 1], b[|b| - 1];
      LastOfAll(rules, a, b);
      var front, front' := a[..|a| - 1], b[..|b| - 1];
      forall i: nat
        ensures i in front <==> i in front'
      {
        FrontHolds(rules, a, i);
        FrontHolds(rules, b, i);
      }
      OrderUnique(rules, front, front');
      assert a == front + [x] && b == front' + [y];
    }
  }

  lemma LastOfAll(rules: seq<Rule>, a: seq<nat>, b: seq<nat>)
    requires Positions(rules, a) && Positions(rules, b) && InTurn(rules, a) && InTurn(rules, b)
    requires a != [] && forall i: nat :: i in a <==> i in b
    ensures b != [] && a[|a| - 1] == b[|b| - 1]
  {
    assert a[0] in b;
    var x, y := a[|a| - 1], b[|b| - 1];
    assert x in a && y in b;
    EarlierThanLast(rules, a, y);
    EarlierThanLast(rules, b, x);
  }

  lemma EarlierThanLast(rules: seq<Rule>, order: seq<nat>, i: nat)
    requires Positions(rules, order) && InTurn(rules, order) && i in order
    ensures i < |rules| && order[|order| - 1] < |rules|
    ensures i == order[|order| - 1] || Earlier(rules, i, order[|order| - 1])
  {
    var k :| 0 <= k < |order| && order[k] == i;
    if k < |order| - 1 { assert Earlier(rules, order[k], order[|order| - 1]); }
  }

  lemma FrontHolds(rules: seq<Rule>, order: seq<nat>, i: nat)
    requires Positions(rules, order) && InTurn(rules, order) && order != []
    ensures i in order[..|order| - 1] <==> i in order && i != order[|order| - 1]
  {
    var front, last := order[..|order| - 1], order[|order| - 1];
    assert order == front + [last];
    if i in front {
      var k :| 0 <= k < |front| && front[k] == i;
      assert Earlier(rules, order[k], order[|order| - 1]);
    }
  }

  /** The run order, built from the last rule to the first. */
  ghost function OrderOf(rules: seq<Rule>): seq<nat> {
    if rules == [] then []
    else
      var rest := Shifted(OrderOf(rules[1..]));
      if rules[0].enabled then FirstPut(rules, rest) else rest
  }

  ghost function Shifted(order: seq<nat>): seq<nat> {
    seq(|order|, k requires 0 <= k < |order| => order[k] + 1)
  }

  ghost function FirstPut(rules: seq<Rule>, order: seq<nat>): seq<nat>
    requires rules != []
  {
    if order == [] || order[0] >= |rules| || rules[0].priority <= rules[order[0]].priority then [0] + order
    else [order[0]] + FirstPut(rules, order[1..])
  }

  lemma ShiftedOrder(rules: seq<Rule>, order: seq<nat>)
    requires rules != [] && RunOrder(rules[1..], order)
    ensures var s := Shifted(order);
            && Positions(rules, s) && InTurn(rules, s) && Picked(rules, s) == Picked(rules[1..], order)
            && forall i: nat :: i in s <==> 0 < i < |rules| && rules[i].enabled
  {
    var s := Shifted(order);
    forall k, l | 0 <= k < l < |s|
      ensures Earlier(rules, s[k], s[l])
    {
      assert Earlier(rules[1..], order[k], order[l]);
    }
    forall i: nat
      ensures i in s <==> 0 < i < |rules| && rules[i].enabled
    {
      if i in s {
        var k :| 0 <= k < |s| && s[k] == i;
        assert order[k] in order;
      }
      if 0 < i < |rules| && rules[i].enabled {
        assert rules[1..][i - 1].enabled && i - 1 in order;
        var k :| 0 <= k < |order| && order[k] == i - 1;
        assert s[k] == i;
      }
    }
  }

  lemma {:induction false} FirstPutKeeps(rules: seq<Rule>, order: seq<nat>)
    requires rules != [] && Positions(rules, order) && InTurn(rules, order) && 0 !in order
    ensures var put := FirstPut(rules, order);
            && Positions(rules, put) && InTurn(rules, put)
            && (forall i: nat :: i in put <==> i == 0 || i in order)
            && Picked(rules, put) == Insert(rules[0], Picked(rules, order))
  {
    if order == [] || rules[0].priority <= rules[order[0]].priority {
      PutInFront(rules, order);
    } else {
      var rest := order[1..];
      assert order == [order[0]] + rest;
      assert forall k :: 0 <= k < |rest| ==> rest[k] == order[k + 1];
      FirstPutKeeps(rules, rest);
      PutBehind(rules, order, FirstPut(rules, rest));
      ConsInTurn(rules, order[0], FirstPut(rules, rest));
      PickedCons(rules, order[0], rest);
      PickedCons(rules, order[0], FirstPut(rules, rest));
    }
  }

  lemma PickedCons(rules: seq<Rule>, first: nat, rest: seq<nat>)
    requires first < |rules| && Positions(rules, rest)
    ensures Positions(rules, [first] + rest) && Picked(rules, [first] + rest) == [rules[first]] + Picked(rules, rest)
  {
    var all := [first] + rest;
    assert forall k :: 0 < k < |all| ==> all[k] == rest[k - 1];
  }

  lemma PutBehind(rules: seq<Rule>, order: seq<nat>, put: seq<nat>)
    requires Positions(rules, order) && InTurn(rules, order) && order != [] && Positions(rules, put)
    requires rules != [] && rules[order[0]].priority < rules[0].priority
    requires forall i: nat :: i in put <==> i == 0 || i in order[1..]
    ensures forall k :: 0 <= k < |put| ==> Earlier(rules, order[0], put[k])
  {
    forall k | 0 <= k < |put|
      ensures Earlier(rules, order[0], put[k])
    {
      assert put[k] in put;
      if put[k] != 0 {
        var j :| 0 <= j < |order[1..]| && order[1..][j] == put[k];
        assert Earlier(rules, order[0], order[j + 1]);
      }
    }
  }

  lemma PutInFront(rules: seq<Rule>, order: seq<nat>)
    requires rules != [] && Positions(rules, order) && InTurn(rules, order) && 0 !in order
    requires order == [] || rules[0].priority <= rules[order[0]].priority
    ensures InTurn(rules, [0] + order)
    ensures Picked(rules, [0] + order) == [rules[0]] + Picked(rules, order)
  {
    forall k | 0 <= k < |order|
      ensures Earlier(rules, 0, order[k])
    {
      assert order[k] in order;
      if k > 0 { assert Earlier(rules, order[0], order[k]); }
    }
    ConsInTurn(rules, 0, order);
  }

  lemma ConsInTurn(rules: seq<Rule>, first: nat, rest: seq<nat>)
    requires first < |rules| && Positions(rules, rest) && InTurn(rules, rest)
    requires forall k :: 0 <= k < |rest| ==> Earlier(rules, first, rest[k])
    ensures Positions(rules, [first] + rest) && InTurn(rules, [first] + rest)
  {
    var all := [first] + rest;
    assert forall k :: 0 < k < |all| ==> all[k] == rest[k - 1];
  }

  /** There is a run order, and the engine follows it. */
  lemma {:induction false} OrderIsRun(rules: seq<Rule>)
    ensures RunOrder(rules, OrderOf(rules))
    ensures Picked(rules, OrderOf(rules)) == SortByPriority(Enabled(rules))
  {
    if rules != [] {
      OrderIsRun(rules[1..]);
      var rest := Shifted(OrderOf(rules[1..]));
      ShiftedOrder(rules, OrderOf(rules[1..]));
      if rules[0].enabled {
        FirstPutKeeps(rules, rest);
        assert ([rules[0]] + Enabled(rules[1..]))[1..] == Enabled(rules[1..]);
      } else {
        assert [] + Enabled(rules[1..]) == Enabled(rules[1..]);
      }
    }
  }

  /** The rules the engine runs are the enabled ones and no other, each once, by priority and
      among equals as given. */
  lemma RunsInOrder(rules: seq<Rule>, order: seq<nat>)
    requires RunOrder(rules, order)
    ensures Picked(rules, order) == SortByPriority(Enabled(rules))
  {
    OrderIsRun(rules);
    OrderUnique(rules, order, OrderOf(rules));
  }

  // ----------------------------------------------------------------------
  // When a predicate holds
  // ----------------------------------------------------------------------

  /** What each kind of predicate asks of an item, by positions in its lists and texts. */
  ghost predicate Holds(v: View, p: SF.Predicate) {
    match p
    case OfType(types) => exists k :: 0 <= k < |types| && types[k] == v.item.contentType
    case Tagged(tags) => exists k, j :: 0 <= k < |tags| && 0 <= j < |v.tags| && SameLetters(v.tags[j], tags[k])
    case InStatus(statuses) => exists k :: 0 <= k < |statuses| && statuses[k] == v.item.status
    case NotInStatus(statuses) => forall k :: 0 <= k < |statuses| ==> statuses[k] != v.item.status
    case FromSource(source) => v.feedTitle.Some? && Occurs(source, v.feedTitle.value)
    case CreatedSince(date) => !ComesBefore(v.item.createdAt, date + "T00:00:00Z")
    case CreatedBefore(date) => ComesBefore(v.item.createdAt, date + "T00:00:00Z")
    case Matching(text) =>
      Occurs(text, v.item.title) || (v.item.content.Some? && Occurs(text, v.item.content.value))
  }

  lemma TagsHold(v: View, tags: seq<string>)
    ensures Matches(v, SF.Tagged(tags)) <==> Holds(v, SF.Tagged(tags))
  {
    if Matches(v, SF.Tagged(tags)) {
      var t :| t in tags && HasTag(v.tags, t);
      HasTagMeans(v.tags, t);
      var u :| u in v.tags && SameLetters(u, t);
      var k :| 0 <= k < |tags| && tags[k] == t;
      var j :| 0 <= j < |v.tags| && v.tags[j] == u;
      assert SameLetters(v.tags[j], tags[k]);
    }
    forall k, j | 0 <= k < |tags| && 0 <= j < |v.tags| && SameLetters(v.tags[j], tags[k])
      ensures Matches(v, SF.Tagged(tags))
    {
      HasTagMeans(v.tags, tags[k]);
      assert v.tags[j] in v.tags;
      assert HasTag(v.tags, tags[k]);
    }
  }

  lemma MatchesExactly(v: View, p: SF.Predicate)
    ensures Matches(v, p) <==> Holds(v, p)
  {
    match p {
      case Tagged(tags) => TagsHold(v, tags);
      case FromSource(source) =>
        if v.feedTitle.Some? { OccursExactly(source, v.feedTitle.value); }
      case CreatedSince(date) => BeforeMeans(v.item.createdAt, date + "T00:00:00Z");
      case CreatedBefore(date) => BeforeMeans(v.item.createdAt, date + "T00:00:00Z");
      case Matching(text) =>
        OccursExactly(text, v.item.title);
        if v.item.content.Some? { OccursExactly(text, v.item.content.value); }
      case _ =>
    }
  }

  /** A rule fires when its query reads as a filter all of whose predicates hold. */
  ghost predicate Intended(v: View, r: Rule) {
    exists filter: seq<SF.Predicate> ::
      && filter != [] && Grammar.AllRead(SF.Tokens(Trim(r.query)), filter)
      && forall p <- filter :: Holds(v, p)
  }

  lemma FiresExactly(v: View, r: Rule)
    ensures Fires(v, r) <==> Intended(v, r)
  {
    var read := SF.Parsed(r.query);
    if read.Ok? {
      Grammar.QueryExactly(r.query, read.value);
      forall p | p in read.value
        ensures Matches(v, p) <==> Holds(v, p)
      {
        MatchesExactly(v, p);
      }
    }
    forall filter: seq<SF.Predicate> | filter != [] && Grammar.AllRead(SF.Tokens(Trim(r.query)), filter)
      ensures read == Ok(filter)
    {
      Grammar.QueryExactly(r.query, filter);
    }
  }

  // ----------------------------------------------------------------------
  // Evaluation
  // ----------------------------------------------------------------------

  ghost function Intent(): (View, Rule) -> bool { (v: View, r: Rule) => Intended(v, r) }

  lemma MeaningByIntent(v: View, rules: seq<Rule>, fired: seq<bool>)
    ensures Meaning(Intent(), v, rules, fired) <==> Meaning(Fires, v, rules, fired)
  {
    forall w: View, r: Rule
      ensures Intent()(w, r) == Fires(w, r)
    {
      FiresExactly(w, r);
    }
  }

  /** Evaluation is its meaning. Take the enabled rules in their run order. There is exactly
      one way to say which of them fire, each on the initial tags and those named by the fired
      rules before it. The plan lists the actions of the rules that fire, in order, and the
      final tags are the initial ones and behind them those the fired rules name, each once. */
  lemma EvaluationIsMeaning(v: View, rules: seq<Rule>, order: seq<nat>, fired: seq<bool>)
    requires RunOrder(rules, order)
    requires Meaning(Intent(), v, Picked(rules, order), fired)
    ensures Evaluated(v, rules) ==
            (PlanFor(Picked(rules, order), fired), Merged(v.tags, TagsAdded(Picked(rules, order), fired)))
  {
    RunsInOrder(rules, order);
    MeaningByIntent(v, Picked(rules, order), fired);
    FiresIsMonotone();
    EngineMeets(Fires, v, Picked(rules, order));
    RunIsMeaning(Fires, v, Picked(rules, order), fired);
  }

  lemma MeaningExists(v: View, rules: seq<Rule>) returns (order: seq<nat>, fired: seq<bool>)
    ensures RunOrder(rules, order) && Meaning(Intent(), v, Picked(rules, order), fired)
    ensures forall o :: RunOrder(rules, o) ==> o == order
    ensures forall f :: Meaning(Intent(), v, Picked(rules, order), f) ==> f == fired
  {
    order := OrderOf(rules);
    OrderIsRun(rules);
    var sorted := Picked(rules, order);
    fired := Fired(Fires, v, sorted);
    FiresIsMonotone();
    EngineMeets(Fires, v, sorted);
    MeaningByIntent(v, sorted, fired);
    forall o | RunOrder(rules, o)
      ensures o == order
    {
      OrderUnique(rules, o, order);
    }
    forall f | Meaning(Intent(), v, sorted, f)
      ensures f == fired
    {
      MeaningByIntent(v, sorted, f);
      RunIsMeaning(Fires, v, sorted, f);
    }
  }

  /** A rule that is switched off has no effect: without it the result is the same. */
  lemma DisabledIgnored(v: View, before: seq<Rule>, r: Rule, after: seq<Rule>)
    requires !r.enabled
    ensures Evaluated(v, before + [r] + after) == Evaluated(v, before + after)
  {
    EnabledConcat(before, after);
    EnabledConcat(before + [r], after);
    EnabledConcat(before, [r]);
    assert [r][1..] == [] && Enabled([r]) == [] + Enabled([]);
    assert Enabled(before) + [] == Enabled(before);
  }

  lemma EnabledCons(r: Rule, a: seq<Rule>, b: seq<Rule>)
    ensures (if r.enabled then [r] else []) + (a + b) == (if r.enabled then [r] else []) + a + b
  {
  }

  lemma {:induction false} EnabledConcat(a: seq<Rule>, b: seq<Rule>)
    ensures Enabled(a + b) == Enabled(a) + Enabled(b)
  {
    if a == [] {
      assert a + b == b;
    } else {
      assert (a + b)[0] == a[0] && (a + b)[1..] == a[1..] + b;
      EnabledConcat(a[1..], b);
      EnabledCons(a[0], Enabled(a[1..]), Enabled(b));
    }
  }

  // ----------------------------------------------------------------------
  // Dates
  // ----------------------------------------------------------------------

  /** An item created on `day`, with the rest of its time stamp. By the day alone it counts
      as created since a date unless its day is earlier; on the date itself the rest of the
      stamp decides. */
  lemma SinceExactly(v: View, day: string, rest: string, date: string)
    requires v.item.createdAt == day + rest && |day| == |date|
    ensures Holds(v, SF.CreatedSince(date)) <==>
            ComesBefore(date, day) || (day == date && !ComesBefore(rest, "T00:00:00Z"))
    ensures Holds(v, SF.CreatedSince(date)) <==> !Holds(v, SF.CreatedBefore(date))
  {
    BeforeMeans(day + rest, date + "T00:00:00Z");
    BeforeMeans(date, day);
    BeforeMeans(day, date);
    BeforeMeans(rest, "T00:00:00Z");
    BeforeInFront(day, rest, date, "T00:00:00Z");
    BeforeOrders(day, date, day);
  }

  lemma {:induction false} BeforeInFront(a: string, x: string, b: string, y: string)
    requires |a| == |b|
    ensures Before(a + x, b + y) <==> Before(a, b) || (a == b && Before(x, y))
  {
    if a == "" {
      assert a + x == x && b + y == y;
    } else {
      assert (a + x)[1..] == a[1..] + x && (b + y)[1..] == b[1..] + y;
      BeforeInFront(a[1..], x, b[1..], y);
      assert a[0] == b[0] && a[1..] == b[1..] <==> a == b by {
        assert a == [a[0]] + a[1..] && b == [b[0]] + b[1..];
      }
    }
  }

  /** A whole second, at midnight or later, counts as the day it belongs to. A fraction of the
      first second after midnight does not: its stamp sorts in front of midnight's. */
  lemma FirstSecondMissed(fraction: string)
    ensures ComesBefore("T00:00:00." + fraction + "Z", "T00:00:00Z")
    ensures !ComesBefore("T00:00:00Z", "T00:00:00Z")
  {
    var a, b := "T00:00:00." + fraction + "Z", "T00:00:00Z";
    assert a[..9] == b[..9] && a[9] == '.' && b[9] == 'Z';
    BeforeMeans(b, b);
    BeforeOrders(b, b, b);
  }

  /** Any other time of a day sorts behind its midnight. */
  lemma LaterTimes(time: string)
    requires |time| >= 9 && time[0] == 'T' && time[3] == ':' && time[6] == ':'
    requires forall i <- [1, 2, 4, 5, 7, 8] :: '0' <= time[i] <= '9'
    requires time[..9] != "T00:00:00"
    ensures !ComesBefore(time, "T00:00:00Z")
  {
    var midnight := "T00:00:00Z";
    assert midnight[..9] == "T00:00:00";
    var d := 0;
    while d < 9 && time[d] == midnight[d]
      invariant d <= 9 && time[..d] == midnight[..d]
    {
      assert time[..d + 1] == time[..d] + [time[d]] && midnight[..d + 1] == midnight[..d] + [midnight[d]];
      d := d + 1;
    }
    assert d in [1, 2, 4, 5, 7, 8];
    assert midnight[..d] == time[..d] && midnight[d] < time[d];
    assert ComesBefore(midnight, time);
    BeforeMeans(midnight, time);
    BeforeMeans(time, midnight);
    BeforeOrders(midnight, time, midnight);
  }
}
