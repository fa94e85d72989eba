/**
 The rule engine: enabled rules run in stable priority order, and the tags they add are
 visible to the rules after them.

 `Outcome` follows the engine's loop, with the test that decides whether a rule fires as a
 parameter; `Evaluated` is the outcome for the engine's own test on the sorted rules.
 `Meaning` says without any loop which rules fire.

 Case is folded for ASCII letters only.
 */
module Rules {
  import opened Wrappers
  import opened Text
  import SF = SmartFilter

  /** `createdAt` is the item's creation time in RFC 3339 form, as the engine compares it. */
  datatype Item = Item(contentType: SF.ContentType, status: SF.Status, title: string, content: Option<string>, createdAt: string)

  datatype Action = AddTag(tag: string) | SetStatus(status: SF.Status) | AddToCollection(name: string) | Mute

  datatype Rule = Rule(id: nat, name: string, enabled: bool, priority: int, query: string, actions: seq<Action>)

  datatype Planned = Planned(ruleId: nat, ruleName: string, action: Action)

  /** What a rule is matched against. */
  datatype View = View(item: Item, feedTitle: Option<string>, tags: seq<string>)

  // ----------------------------------------------------------------------
  // Matching
  // ----------------------------------------------------------------------

  predicate HasTag(tags: seq<string>, tag: string) {
    exists t <- tags :: Fold(t) == Fold(tag)
  }

  function Midnight(date: string): string { date + "T00:00:00Z" }

  predicate Matches(v: View, p: SF.Predicate) {
    match p
    case OfType(types) => v.item.contentType in types
    case Tagged(tags) => exists t <- tags :: HasTag(v.tags, t)
    case InStatus(statuses) => v.item.status in statuses
    case NotInStatus(statuses) => v.item.status !in statuses
    case FromSource(source) => v.feedTitle.Some? && Contains(Fold(v.feedTitle.value), Fold(source))
    case CreatedSince(date) => !Before(v.item.createdAt, Midnight(date))
    case CreatedBefore(date) => Before(v.item.createdAt, Midnight(date))
    case Matching(text) =>
      || Contains(Fold(v.item.title), Fold(text))
      || (v.item.content.Some? && Contains(Fold(v.item.content.value), Fold(text)))
  }

  predicate MatchesAll(v: View, filter: seq<SF.Predicate>) {
    forall p <- filter :: Matches(v, p)
  }

  /** A rule whose filter does not parse never fires. */
  predicate Fires(v: View, r: Rule) {
    SF.Parsed(r.query).Ok? && MatchesAll(v, SF.Parsed(r.query).value)
  }

  // ----------------------------------------------------------------------
  // Order
  // ----------------------------------------------------------------------

  ghost predicate Ordered(rules: seq<Rule>) {
    forall i, j :: 0 <= i < j < |rules| ==> rules[i].priority <= rules[j].priority
  }

  function WithPriority(rules: seq<Rule>, priority: int): seq<Rule> {
    if rules == [] then []
    else (if rules[0].priority == priority then [rules[0]] else []) + WithPriority(rules[1..], priority)
  }

  function Insert(r: Rule, rules: seq<Rule>): seq<Rule> {
    if rules == [] || r.priority <= rules[0].priority then [r] + rules else [rules[0]] + Insert(r, rules[1..])
  }

  function SortByPriority(rules: seq<Rule>): seq<Rule> {
    if rules == [] then [] else Insert(rules[0], SortByPriority(rules[1..]))
  }

  function Enabled(rules: seq<Rule>): seq<Rule> {
    if rules == [] then [] else (if rules[0].enabled then [rules[0]] else []) + Enabled(rules[1..])
  }

  lemma {:induction false} InsertKeeps(r: Rule, rules: seq<Rule>)
    ensures multiset(Insert(r, rules)) == multiset{r} + multiset(rules)
    ensures forall s <- Insert(r, rules) :: s == r || s in rules
  {
    if rules != [] && r.priority > rules[0].priority {
      InsertKeeps(r, rules[1..]);
      assert rules == [rules[0]] + rules[1..];
    }
  }

  lemma {:induction false} InsertOrders(r: Rule, rules: seq<Rule>)
    requires Ordered(rules)
    ensures Ordered(Insert(r, rules))
  {
    if rules != [] && r.priority > rules[0].priority {
      var rest := Insert(r, rules[1..]);
      InsertOrders(r, rules[1..]);
      InsertKeeps(r, rules[1..]);
      OrderedCons(rules[0], rest);
    } else {
      OrderedCons(r, rules);
    }
  }

  lemma OrderedCons(first: Rule, rest: seq<Rule>)
    requires Ordered(rest) && forall s <- rest :: first.priority <= s.priority
    ensures Ordered([first] + rest)
  {
  }

  lemma {:induction false} InsertStable(r: Rule, rules: seq<Rule>, p: int)
    requires Ordered(rules)
    ensures WithPriority(Insert(r, rules), p) == WithPriority([r] + rules, p)
  {
    assert ([r] + rules)[1..] == rules;
    if rules != [] && r.priority > rules[0].priority {
      InsertStable(r, rules[1..], p);
      var rest := Insert(r, rules[1..]);
      assert ([rules[0]] + rest)[1..] == rest && ([r] + rules[1..])[1..] == rules[1..];
    }
  }

  /** The order rules run in: sorted by priority, nothing lost or added, and rules of
      equal priority in the order they were given. */
  lemma {:induction false} SortIsStable(rules: seq<Rule>, p: int)
    ensures Ordered(SortByPriority(rules)) && multiset(SortByPriority(rules)) == multiset(rules)
    ensures WithPriority(SortByPriority(rules), p) == WithPriority(rules, p)
  {
    if rules != [] {
      SortIsStable(rules[1..], p);
      var sorted := SortByPriority(rules[1..]);
      InsertOrders(rules[0], sorted);
      InsertKeeps(rules[0], sorted);
      InsertStable(rules[0], sorted, p);
      assert rules == [rules[0]] + rules[1..];
      assert ([rules[0]] + sorted)[1..] == sorted;
    }
  }

  // ----------------------------------------------------------------------
  // Evaluation
  // ----------------------------------------------------------------------

  function WithTags(tags: seq<string>, actions: seq<Action>): seq<string>
    decreases |actions|
  {
    if actions == [] then tags
    else
      var before := WithTags(tags, actions[..|actions| - 1]);
      var a := actions[|actions| - 1];
      if a.AddTag? && !HasTag(before, a.tag) then before + [a.tag] else before
  }

  function PlanOf(r: Rule): seq<Planned> {
    seq(|r.actions|, i requires 0 <= i < |r.actions| => Planned(r.id, r.name, r.actions[i]))
  }

  /** Whether a rule fires on what it sees. */
  type Trigger = (View, Rule) -> bool

  /** Plan and tags after the rules have run in the given order. */
  function Outcome(fires: Trigger, v: View, rules: seq<Rule>): (seq<Planned>, seq<string>)
    decreases |rules|
  {
    if rules == [] then ([], v.tags)
    else
      var (plan, tags) := Outcome(fires, v, rules[..|rules| - 1]);
      var r := rules[|rules| - 1];
      if fires(v.(tags := tags), r) then (plan + PlanOf(r), WithTags(tags, r.actions)) else (plan, tags)
  }

  function Evaluated(v: View, rules: seq<Rule>): (seq<Planned>, seq<string>) {
    Outcome(Fires, v, SortByPriority(Enabled(rules)))
  }

  class MatchContext {
    const item: Item
    const feedTitle: Option<string>
    var tags: seq<string>

    ghost function Now(): View
      reads this
    {
      View(item, feedTitle, tags)
    }

    constructor (item: Item, feedTitle: Option<string>, tags: seq<string>)
      ensures Now() == View(item, feedTitle, tags)
    {
      this.item, this.feedTitle, this.tags := item, feedTitle, tags;
    }

    method EvaluateRules(rules: seq<Rule>) returns (planned: seq<Planned>)
      modifies this`tags
      ensures (planned, tags) == Evaluated(old(Now()), rules)
    {
      planned := [];
      var sorted := SortByPriority(Enabled(rules));
      for i := 0 to |sorted|
        invariant (planned, tags) == Outcome(Fires, old(Now()), sorted[..i])
      {
        var rule := sorted[i];
        assert sorted[..i + 1][..i] == sorted[..i];
        var matched := RuleMatches(rule);
        if matched {
          planned := Apply(rule, planned);
        }
      }
      assert sorted[..|sorted|] == sorted;
    }

    method RuleMatches(rule: Rule) returns (matched: bool)
      ensures matched == Fires(Now(), rule)
    {
      var filter := SF.Parse(rule.query);
      if filter.Err? { return false; }
      matched := MatchesAll(View(item, feedTitle, tags), filter.value);
    }

    /** The actions of one rule: tags become visible at once, everything is planned. */
    method Apply(rule: Rule, before: seq<Planned>) returns (planned: seq<Planned>)
      modifies this`tags
      ensures planned == before + PlanOf(rule) && tags == WithTags(old(tags), rule.actions)
    {
      planned := before;
      for k := 0 to |rule.actions|
        invariant tags == WithTags(old(tags), rule.actions[..k])
        invariant planned == before + PlanOf(rule)[..k]
      {
        var action := rule.actions[k];
        assert rule.actions[..k + 1][..k] == rule.actions[..k];
        if action.AddTag? && !HasTag(tags, action.tag) {
          tags := tags + [action.tag];
        }
        planned := planned + [Planned(rule.id, rule.name, action)];
      }
      assert rule.actions[..|rule.actions|] == rule.actions && PlanOf(rule)[..|rule.actions|] == PlanOf(rule);
    }
  }

  // ----------------------------------------------------------------------
  // The declarative meaning
  // ----------------------------------------------------------------------

  /** Tags named by the actions of the rules that fired, in order, repetitions and all. */
  ghost function TagsNamed(actions: seq<Action>): seq<string> {
    if actions == [] then []
    else TagsNamed(actions[..|actions| - 1])
         + (if actions[|actions| - 1].AddTag? then [actions[|actions| - 1].tag] else [])
  }

  ghost function TagsAdded(rules: seq<Rule>, fired: seq<bool>): seq<string>
    requires |fired| == |rules|
  {
    if rules == [] then []
    else
      var n := |rules| - 1;
      TagsAdded(rules[..n], fired[..n]) + (if fired[n] then TagsNamed(rules[n].actions) else [])
  }

  ghost function PlanFor(rules: seq<Rule>, fired: seq<bool>): seq<Planned>
    requires |fired| == |rules|
  {
    if rules == [] then []
    else
      var n := |rules| - 1;
      PlanFor(rules[..n], fired[..n]) + (if fired[n] then PlannedBy(rules[n], rules[n].actions) else [])
  }

  /** A rule's actions, each planned under the rule's id and name. */
  ghost function PlannedBy(r: Rule, actions: seq<Action>): seq<Planned> {
    if actions == [] then []
    else PlannedBy(r, actions[..|actions| - 1]) + [Planned(r.id, r.name, actions[|actions| - 1])]
  }

  lemma {:induction false} PlannedInOrder(r: Rule, n: nat)
    requires n <= |r.actions|
    ensures PlannedBy(r, r.actions[..n]) == PlanOf(r)[..n]
  {
    if n > 0 {
      PlannedInOrder(r, n - 1);
      assert r.actions[..n][..n - 1] == r.actions[..n - 1];
    }
  }

  /** The tags with those of `named` that are not among them yet, in order. */
  ghost function Merged(tags: seq<string>, named: seq<string>): seq<string>
    decreases |named|
  {
    if named == [] then tags
    else
      var before, t := Merged(tags, named[..|named| - 1]), named[|named| - 1];
      if exists u <- before :: SameLetters(u, t) then before else before + [t]
  }

  lemma HasTagMeans(tags: seq<string>, t: string)
    ensures HasTag(tags, t) <==> exists u <- tags :: SameLetters(u, t)
  {
    forall u | u in tags
      ensures Fold(u) == Fold(t) <==> SameLetters(u, t)
    {
      FoldTells(u, t);
    }
  }

  lemma {:induction false} MergedConcat(tags: seq<string>, a: seq<string>, b: seq<string>)
    ensures Merged(tags, a + b) == Merged(Merged(tags, a), b)
    decreases |b|
  {
    if b == [] {
      assert a + b == a;
    } else {
      assert (a + b)[..|a + b| - 1] == a + b[..|b| - 1];
      MergedConcat(tags, a, b[..|b| - 1]);
    }
  }

  lemma {:induction false} WithTagsMerges(tags: seq<string>, actions: seq<Action>)
    ensures WithTags(tags, actions) == Merged(tags, TagsNamed(actions))
    decreases |actions|
  {
    if actions != [] {
      var front, a := actions[..|actions| - 1], actions[|actions| - 1];
      WithTagsMerges(tags, front);
      if a.AddTag? {
        HasTagMeans(WithTags(tags, front), a.tag);
        MergedConcat(tags, TagsNamed(front), [a.tag]);
        assert [a.tag][..0] == [];
      } else {
        assert TagsNamed(front) + [] == TagsNamed(front);
      }
    }
  }

  /** `fired` says which rules fire: rule k does exactly when it matches the item with the
      initial tags and everything the fired rules before it add. */
  ghost predicate Meaning(fires: Trigger, v: View, rules: seq<Rule>, fired: seq<bool>) {
    && |fired| == |rules|
    && forall k :: 0 <= k < |rules| ==>
         (fired[k] <==> fires(v.(tags := v.tags + TagsAdded(rules[..k], fired[..k])), rules[k]))
  }

  ghost predicate SameTags(a: seq<string>, b: seq<string>) {
    forall t: string :: HasTag(a, t) <==> HasTag(b, t)
  }

  ghost predicate MoreTags(a: seq<string>, b: seq<string>) {
    forall t: string :: HasTag(a, t) ==> HasTag(b, t)
  }

  /** More tags never keep a rule from firing. */
  ghost predicate Monotone(fires: Trigger) {
    forall v: View, a, b, r: Rule :: MoreTags(a, b) && fires(v.(tags := a), r) ==> fires(v.(tags := b), r)
  }

  lemma SameTagsMatch(fires: Trigger, v: View, a: seq<string>, b: seq<string>, r: Rule)
    requires Monotone(fires) && SameTags(a, b)
    ensures fires(v.(tags := a), r) <==> fires(v.(tags := b), r)
  {
    assert MoreTags(a, b) && MoreTags(b, a);
  }

  lemma MoreTagsMatch(v: View, a: seq<string>, b: seq<string>, p: SF.Predicate)
    requires MoreTags(a, b) && Matches(v.(tags := a), p)
    ensures Matches(v.(tags := b), p)
  {
    if p.Tagged? {
      var t :| t in p.tags && HasTag(a, t);
      assert HasTag(b, t);
    }
  }

  /** No filter asks for the absence of a tag. */
  lemma FiresIsMonotone()
    ensures Monotone(Fires)
  {
    forall v: View, a, b, r: Rule | MoreTags(a, b) && Fires(v.(tags := a), r)
      ensures Fires(v.(tags := b), r)
    {
      var filter := SF.Parsed(r.query).value;
      forall p | p in filter
        ensures Matches(v.(tags := b), p)
      {
        MoreTagsMatch(v, a, b, p);
      }
    }
  }

  lemma HasTagConcat(a: seq<string>, b: seq<string>, t: string)
    ensures HasTag(a + b, t) <==> HasTag(a, t) || HasTag(b, t)
  {
    if HasTag(a, t) {
      var x :| x in a && Fold(x) == Fold(t);
      assert x in a + b;
    }
    if HasTag(b, t) {
      var x :| x in b && Fold(x) == Fold(t);
      assert x in a + b;
    }
  }

  /** Adding the tags of a rule one by one, skipping known ones, has the effect of adding
      them all. */
  lemma {:induction false} WithTagsAdds(tags: seq<string>, actions: seq<Action>, t: string)
    ensures HasTag(WithTags(tags, actions), t) <==> HasTag(tags, t) || HasTag(TagsNamed(actions), t)
    decreases |actions|
  {
    if actions != [] {
      var n := |actions| - 1;
      var before, a := WithTags(tags, actions[..n]), actions[n];
      WithTagsAdds(tags, actions[..n], t);
      if a.AddTag? {
        HasTagConcat(before, [a.tag], t);
        HasTagConcat(TagsNamed(actions[..n]), [a.tag], t);
        assert HasTag([a.tag], t) <==> Fold(a.tag) == Fold(t) by { assert a.tag in [a.tag]; }
        if HasTag(before, a.tag) && Fold(a.tag) == Fold(t) {
          var x :| x in before && Fold(x) == Fold(a.tag);
          assert HasTag(before, t);
        }
      } else {
        HasTagConcat(TagsNamed(actions[..n]), [], t);
      }
    }
  }

  /** Which rules the engine fires. */
  ghost function Fired(fires: Trigger, v: View, rules: seq<Rule>): (fired: seq<bool>)
    ensures |fired| == |rules|
  {
    seq(|rules|, k requires 0 <= k < |rules| => fires(v.(tags := Outcome(fires, v, rules[..k]).1), rules[k]))
  }

  lemma FiredPrefix(fires: Trigger, v: View, rules: seq<Rule>, n: nat)
    requires n <= |rules|
    ensures Fired(fires, v, rules)[..n] == Fired(fires, v, rules[..n])
  {
    forall k | 0 <= k < n
      ensures Fired(fires, v, rules)[k] == Fired(fires, v, rules[..n])[k]
    {
      assert rules[..n][..k] == rules[..k];
    }
  }

  lemma {:induction false} OutcomeMeans(fires: Trigger, v: View, rules: seq<Rule>)
    ensures Outcome(fires, v, rules).0 == PlanFor(rules, Fired(fires, v, rules))
    ensures Outcome(fires, v, rules).1 == Merged(v.tags, TagsAdded(rules, Fired(fires, v, rules)))
    decreases |rules|
  {
    var fired := Fired(fires, v, rules);
    if rules != [] {
      var n := |rules| - 1;
      OutcomeMeans(fires, v, rules[..n]);
      FiredPrefix(fires, v, rules, n);
      var added := TagsAdded(rules[..n], fired[..n]);
      if fired[n] {
        WithTagsMerges(Merged(v.tags, added), rules[n].actions);
        MergedConcat(v.tags, added, TagsNamed(rules[n].actions));
        PlannedInOrder(rules[n], |rules[n].actions|);
        assert rules[n].actions[..|rules[n].actions|] == rules[n].actions;
        assert PlanOf(rules[n])[..|rules[n].actions|] == PlanOf(rules[n]);
      } else {
        assert TagsAdded(rules, fired) == added + [] == added;
      }
    }
  }

  /** Skipping the tags already there makes no difference to what a rule can see. */
  lemma {:induction false} MergedSees(tags: seq<string>, named: seq<string>)
    ensures SameTags(Merged(tags, named), tags + named)
    decreases |named|
  {
    if named == [] {
      assert tags + named == tags;
    } else {
      var front, t := named[..|named| - 1], named[|named| - 1];
      MergedSees(tags, front);
      assert tags + named == (tags + front) + [t];
      forall x: string
        ensures HasTag(Merged(tags, named), x) <==> HasTag(tags + named, x)
      {
        MergedSeesOne(Merged(tags, front), t, x);
        HasTagConcat(tags + front, [t], x);
      }
    }
  }

  lemma MergedSeesOne(before: seq<string>, t: string, x: string)
    ensures var after := if exists u <- before :: SameLetters(u, t) then before else before + [t];
            HasTag(after, x) <==> HasTag(before, x) || HasTag([t], x)
  {
    HasTagConcat(before, [t], x);
    HasTagMeans(before, t);
    assert HasTag([t], x) <==> Fold(t) == Fold(x) by { assert t in [t]; }
    if HasTag(before, t) && Fold(t) == Fold(x) {
      var u :| u in before && Fold(u) == Fold(t);
      assert HasTag(before, x);
    }
  }

  lemma EngineMeets(fires: Trigger, v: View, rules: seq<Rule>)
    requires Monotone(fires)
    ensures Meaning(fires, v, rules, Fired(fires, v, rules))
  {
    var fired := Fired(fires, v, rules);
    forall k | 0 <= k < |rules|
      ensures fired[k] <==> fires(v.(tags := v.tags + TagsAdded(rules[..k], fired[..k])), rules[k])
    {
      OutcomeMeans(fires, v, rules[..k]);
      FiredPrefix(fires, v, rules, k);
      MergedSees(v.tags, TagsAdded(rules[..k], fired[..k]));
      SameTagsMatch(fires, v, Outcome(fires, v, rules[..k]).1, v.tags + TagsAdded(rules[..k], fired[..k]), rules[k]);
    }
  }

  lemma MeaningAt(fires: Trigger, v: View, rules: seq<Rule>, f: seq<bool>, g: seq<bool>, k: nat)
    requires Meaning(fires, v, rules, f) && Meaning(fires, v, rules, g) && k < |rules| && f[..k] == g[..k]
    ensures f[k] == g[k]
  {
  }

  lemma {:induction false} MeaningUnique(fires: Trigger, v: View, rules: seq<Rule>, f: seq<bool>, g: seq<bool>, k: nat)
    requires Meaning(fires, v, rules, f) && Meaning(fires, v, rules, g) && k <= |rules|
    ensures f[..k] == g[..k]
  {
    if k > 0 {
      MeaningUnique(fires, v, rules, f, g, k - 1);
      MeaningAt(fires, v, rules, f, g, k - 1);
      assert f[..k] == f[..k - 1] + [f[k - 1]] && g[..k] == g[..k - 1] + [g[k - 1]];
    }
  }

  lemma RunIsMeaning(fires: Trigger, v: View, rules: seq<Rule>, fired: seq<bool>)
    requires Meaning(fires, v, rules, Fired(fires, v, rules))
    ensures Meaning(fires, v, rules, fired) <==> fired == Fired(fires, v, rules)
    ensures Meaning(fires, v, rules, fired) ==>
              Outcome(fires, v, rules) == (PlanFor(rules, fired), Merged(v.tags, TagsAdded(rules, fired)))
  {
    if Meaning(fires, v, rules, fired) { MeaningIsOne(fires, v, rules, Fired(fires, v, rules), fired); }
    OutcomeMeans(fires, v, rules);
  }

  lemma MeaningIsOne(fires: Trigger, v: View, rules: seq<Rule>, f: seq<bool>, g: seq<bool>)
    requires Meaning(fires, v, rules, f) && Meaning(fires, v, rules, g)
    ensures f == g
  {
    MeaningUnique(fires, v, rules, f, g, |rules|);
    assert f[..|rules|] == f && g[..|rules|] == g;
  }

  // ----------------------------------------------------------------------
  // Monotonicity
  // ----------------------------------------------------------------------

  ghost predicate Subsequence<T>(a: seq<T>, b: seq<T>)
    decreases |b|
  {
    if a == [] then true
    else if b == [] then false
    else if a[|a| - 1] == b[|b| - 1] && Subsequence(a[..|a| - 1], b[..|b| - 1]) then true
    else Subsequence(a, b[..|b| - 1])
  }

  lemma {:induction false} SubsequenceExtends<T>(a: seq<T>, b: seq<T>, c: seq<T>)
    requires Subsequence(a, b)
    ensures Subsequence(a + c, b + c) && Subsequence(a, b + c)
    decreases |c|
  {
    if c == [] {
      assert a + c == a && b + c == b;
    } else {
      var n := |c| - 1;
      SubsequenceExtends(a, b, c[..n]);
      assert (a + c)[..|a + c| - 1] == a + c[..n] && (b + c)[..|b + c| - 1] == b + c[..n];
    }
  }

  /** With more initial tags every rule that fired still fires, so the plan contains the
      old plan in order and the final tags contain the old ones. */
  lemma {:induction false} OutcomeMonotone(fires: Trigger, v: View, more: seq<string>, rules: seq<Rule>)
    requires Monotone(fires) && MoreTags(v.tags, more)
    ensures Subsequence(Outcome(fires, v, rules).0, Outcome(fires, v.(tags := more), rules).0)
    ensures MoreTags(Outcome(fires, v, rules).1, Outcome(fires, v.(tags := more), rules).1)
    decreases |rules|
  {
    if rules != [] {
      var n := |rules| - 1;
      OutcomeMonotone(fires, v, more, rules[..n]);
      var (plan, tags) := Outcome(fires, v, rules[..n]);
      var (plan', tags') := Outcome(fires, v.(tags := more), rules[..n]);
      var r := rules[n];
      SubsequenceExtends(plan, plan', PlanOf(r));
      assert fires(v.(tags := tags), r) ==> fires(v.(tags := more).(tags := tags'), r);
      forall t: string | HasTag(Outcome(fires, v, rules).1, t)
        ensures HasTag(Outcome(fires, v.(tags := more), rules).1, t)
      {
        WithTagsAdds(tags, r.actions, t);
        WithTagsAdds(tags', r.actions, t);
      }
    }
  }

  lemma EvaluationMonotone(v: View, more: seq<string>, rules: seq<Rule>)
    requires MoreTags(v.tags, more)
    ensures Subsequence(Evaluated(v, rules).0, Evaluated(v.(tags := more), rules).0)
    ensures MoreTags(Evaluated(v, rules).1, Evaluated(v.(tags := more), rules).1)
  {
    FiresIsMonotone();
    OutcomeMonotone(Fires, v, more, SortByPriority(Enabled(rules)));
  }

  ghost predicate CaseDistinct(tags: seq<string>) {
    forall i, j :: 0 <= i < j < |tags| ==> Fold(tags[i]) != Fold(tags[j])
  }

  lemma {:induction false} WithTagsDistinct(tags: seq<string>, actions: seq<Action>)
    requires CaseDistinct(tags)
    ensures CaseDistinct(WithTags(tags, actions)) && tags <= WithTags(tags, actions)
    decreases |actions|
  {
    if actions != [] {
      WithTagsDistinct(tags, actions[..|actions| - 1]);
      var before := WithTags(tags, actions[..|actions| - 1]);
      var a := actions[|actions| - 1];
      if a.AddTag? && !HasTag(before, a.tag) {
        assert forall i :: 0 <= i < |before| ==> before[i] in before;
      }
    }
  }

  /** Tags that differ in more than ASCII case stay so, and initial tags stay in front. */
  lemma {:induction false} OutcomeDistinct(fires: Trigger, v: View, rules: seq<Rule>)
    requires CaseDistinct(v.tags)
    ensures CaseDistinct(Outcome(fires, v, rules).1) && v.tags <= Outcome(fires, v, rules).1
    decreases |rules|
  {
    if rules != [] {
      OutcomeDistinct(fires, v, rules[..|rules| - 1]);
      WithTagsDistinct(Outcome(fires, v, rules[..|rules| - 1]).1, rules[|rules| - 1].actions);
    }
  }
}
