/** The shipping-rules use case of the project page: which rewards are queried for
    their shipping rules, how the answers are merged by location, and the states
    it publishes while doing so. */
module ShippingRules {
  import opened Streams
  import opened LinkedMaps

  /** A reward; its shipping preference is read only through the two predicates
      that classify it, which are parameters of the model. */
  datatype Reward = Reward(id: int, title: string)

  /** A shipping location. */
  datatype Location = Location(id: int, displayableName: Option<string>)

  /** A shipping rule; `id` stands for the rule's fields that play no part here
      (its costs). */
  datatype ShippingRule = ShippingRule(id: int, location: Option<Location>)

  /** The answer to one `getShippingRules(reward)` query: a nullable list of
      nullable rules. */
  datatype ShippingRulesEnvelope = ShippingRulesEnvelope(shippingRules: Option<seq<Option<ShippingRule>>>)

  /** `ShippingRulesState`: the published rules, the loading flag, the error. */
  datatype ShippingRulesState = ShippingRulesState(shippingRules: seq<ShippingRule>, loading: bool, error: Option<string>)

  /** `ShippingRulesState()`, the value the state flow starts with. */
  const DefaultState := ShippingRulesState([], false, None)
  /** `ShippingRulesState(loading = true)` */
  const LoadingState := ShippingRulesState([], true, None)
  /** The message of the exception `requireNotNull` throws for a rule without a location. */
  const RequiredValueWasNull := "Required value was null."

  /** `ShippingRulesState(loading = false, error = message)` */
  function ErrorState(message: Option<string>): (s: ShippingRulesState)
    ensures s.shippingRules == [] && !s.loading && s.error == message
  {
    ShippingRulesState([], false, message)
  }

  // ---------------------------------------------------------------------------
  // Planning the queries.

  /** The map from reward id to reward after `put(it.id(), it)` for every reward
      of `rs`, in order. */
  function PutRewards(m: LinkedMap<int, Reward>, rs: seq<Reward>): (r: LinkedMap<int, Reward>)
    requires Valid(m)
    ensures Valid(r)
    decreases |rs|
  {
    if rs == [] then m
    else Put(PutRewards(m, rs[..|rs| - 1]), rs[|rs| - 1].id, rs[|rs| - 1])
  }

  /** The ids of a list of rewards. */
  ghost function Ids(rs: seq<Reward>): set<int> {
    set j | 0 <= j < |rs| :: rs[j].id
  }

  /** `rs[j]` is the last reward of `rs` with its id. */
  ghost predicate LastWithItsId(rs: seq<Reward>, j: int)
    requires 0 <= j < |rs|
  {
    forall j' :: j < j' < |rs| ==> rs[j'].id != rs[j].id
  }

  lemma IdsSnoc(rs: seq<Reward>, x: Reward)
    ensures Ids(rs + [x]) == Ids(rs) + {x.id}
  {
    var s := rs + [x];
    forall k | k in Ids(s) ensures k in Ids(rs) + {x.id} {
      var j :| 0 <= j < |s| && s[j].id == k;
      if j < |rs| { assert rs[j] == s[j]; }
    }
    forall k | k in Ids(rs) ensures k in Ids(s) {
      var j :| 0 <= j < |rs| && rs[j].id == k;
      assert s[j] == rs[j];
    }
    assert s[|rs|] == x;
  }

  /** Filling an empty map files every reward under its own id, and the keys are
      the ids of the list. */
  lemma {:induction false} PutRewardsKeys(rs: seq<Reward>)
    ensures var r := PutRewards(Empty(), rs);
            && r.entries.Keys == Ids(rs)
            && (forall k :: k in r.entries ==> r.entries[k].id == k && r.entries[k] in rs)
    decreases |rs|
  {
    if rs != [] {
      var init := rs[..|rs| - 1];
      var x := rs[|rs| - 1];
      assert rs == init + [x];
      PutRewardsKeys(init);
      IdsSnoc(init, x);
      var r := PutRewards(Empty(), rs);
      forall k | k in r.entries ensures r.entries[k].id == k && r.entries[k] in rs {
        if k != x.id {
          assert r.entries[k] in init;
        }
      }
    }
  }

  /** Each id holds the last reward of the list that has it. */
  lemma {:induction false} PutRewardsLatestWins(rs: seq<Reward>)
    ensures var r := PutRewards(Empty(), rs);
            forall j :: 0 <= j < |rs| && LastWithItsId(rs, j) ==> rs[j].id in r.entries && r.entries[rs[j].id] == rs[j]
    decreases |rs|
  {
    if rs != [] {
      var init := rs[..|rs| - 1];
      PutRewardsLatestWins(init);
      var r := PutRewards(Empty(), rs);
      forall j | 0 <= j < |rs| && LastWithItsId(rs, j) ensures rs[j].id in r.entries && r.entries[rs[j].id] == rs[j] {
        if j < |init| {
          assert LastWithItsId(init, j) by {
            forall j' | j < j' < |init| ensures init[j'].id != init[j].id {
              assert init[j'] == rs[j'];
            }
          }
          assert rs[|rs| - 1].id != rs[j].id;
        }
      }
    }
  }

  /** The rewards to query, as the use case's `init` chooses them: the first reward
      that ships worldwide (querying it returns every location), otherwise every
      reward that ships to restricted locations, one per id. A project without
      rewards queries nothing. */
  ghost function Plan(rewards: Option<seq<Reward>>, worldwide: Reward -> bool, restricted: Reward -> bool): seq<Reward> {
    match rewards
    case None => []
    case Some(rs) =>
      var w := Filter(worldwide, rs);
      if w != [] then [w[0]]
      else Values(PutRewards(Empty(), Filter(restricted, rs)))
  }

  /** The `forEach { put(it.id(), it) }` over the restricted rewards. */
  method PutEach(rs: seq<Reward>) returns (byId: LinkedMap<int, Reward>)
    ensures Valid(byId)
    ensures byId == PutRewards(Empty(), rs)
  {
    byId := Empty();
    var i := 0;
    while i < |rs|
      invariant 0 <= i <= |rs|
      invariant Valid(byId)
      invariant byId == PutRewards(Empty(), rs[..i])
    {
      assert rs[..i + 1][..i] == rs[..i];
      byId := Put(byId, rs[i].id, rs[i]);
      i := i + 1;
    }
    assert rs[..i] == rs;
  }

  /** The `init` block: up to one `put` for the first worldwide reward, then, if
      the map is still empty, one `put` per restricted reward; the query list is
      the map's values. */
  method PlanQueries(rewards: Option<seq<Reward>>, worldwide: Reward -> bool, restricted: Reward -> bool)
    returns (toQuery: seq<Reward>)
    ensures toQuery == Plan(rewards, worldwide, restricted)
  {
    var byId: LinkedMap<int, Reward> := Empty();
    if rewards.Some? {
      var w := Filter(worldwide, rewards.value);
      if w != [] {
        byId := Put(byId, w[0].id, w[0]);
      }
    }
    if byId.entries == map[] && rewards.Some? {
      byId := PutEach(Filter(restricted, rewards.value));
    }
    toQuery := Values(byId);
  }

  /** If any reward ships worldwide, exactly one reward is queried: the first such. */
  lemma PlanWorldwide(rs: seq<Reward>, worldwide: Reward -> bool, restricted: Reward -> bool, i: nat)
    requires i < |rs| && worldwide(rs[i])
    requires forall j :: 0 <= j < i ==> !worldwide(rs[j])
    ensures Plan(Some(rs), worldwide, restricted) == [rs[i]]
  {
    FilterHead(worldwide, rs, i);
  }

  /** The values of a map filled from `rs`: one reward per id of `rs`, each the
      last reward of `rs` with that id, and nothing else. */
  lemma ValuesOfPutRewards(rs: seq<Reward>)
    ensures var q := Values(PutRewards(Empty(), rs));
            && (forall i, j :: 0 <= i < j < |q| ==> q[i].id != q[j].id)
            && (forall x :: x in q ==> x in rs)
            && (forall j :: 0 <= j < |rs| && LastWithItsId(rs, j) ==> rs[j] in q)
  {
    var m := PutRewards(Empty(), rs);
    PutRewardsKeys(rs);
    PutRewardsLatestWins(rs);
    var q := Values(m);
    forall i | 0 <= i < |q| ensures q[i].id == m.keys[i] && q[i] in rs {
      assert m.keys[i] in KeySet(m.keys);
    }
    forall j | 0 <= j < |rs| && LastWithItsId(rs, j) ensures rs[j] in q {
      assert rs[j].id in KeySet(m.keys);
      var i :| 0 <= i < |m.keys| && m.keys[i] == rs[j].id;
      assert q[i] == rs[j];
    }
  }

  /** Otherwise the restricted rewards are queried: one per id, each the last
      restricted reward with that id, and nothing else. */
  lemma PlanRestricted(rs: seq<Reward>, worldwide: Reward -> bool, restricted: Reward -> bool)
    requires forall j :: 0 <= j < |rs| ==> !worldwide(rs[j])
    ensures var q := Plan(Some(rs), worldwide, restricted);
            var f := Filter(restricted, rs);
            && (forall i, j :: 0 <= i < j < |q| ==> q[i].id != q[j].id)
            && (forall x :: x in q ==> x in rs && restricted(x))
            && (forall j :: 0 <= j < |f| && LastWithItsId(f, j) ==> f[j] in q)
  {
    var f := Filter(restricted, rs);
    FilterNone(worldwide, rs);
    assert Plan(Some(rs), worldwide, restricted) == Values(PutRewards(Empty(), f));
    ValuesOfPutRewards(f);
  }

  /** The plan never queries two rewards with the same id. */
  lemma PlanHasDistinctIds(rewards: Option<seq<Reward>>, worldwide: Reward -> bool, restricted: Reward -> bool)
    ensures var q := Plan(rewards, worldwide, restricted);
            forall i, j :: 0 <= i < j < |q| ==> q[i].id != q[j].id
  {
    if rewards.Some? && Filter(worldwide, rewards.value) == [] {
      PlanRestricted(rewards.value, worldwide, restricted);
    }
  }

  // ---------------------------------------------------------------------------
  // Merging the answers.

  /** The key a rule is filed under. */
  function LocationId(rule: ShippingRule): int
    requires rule.location.Some?
  {
    rule.location.value.id
  }

  /** Every non-null rule of `rules` has a location. */
  ghost predicate AllLocated(rules: seq<Option<ShippingRule>>) {
    forall j :: 0 <= j < |rules| && rules[j].Some? ==> rules[j].value.location.Some?
  }

  /** The effect of `rules.map { rule -> rule?.let { put(requireNotNull(location?.id), it) } }`
      on the map: null rules are skipped, located rules are put under their location
      id, and the first rule without a location throws, which the second component
      reports; the puts before it have happened. */
  function MergeRules(m: LinkedMap<int, ShippingRule>, rules: seq<Option<ShippingRule>>): (r: (LinkedMap<int, ShippingRule>, bool))
    requires Valid(m)
    ensures Valid(r.0)
    ensures r.1 <==> !AllLocated(rules)
    decreases |rules|
  {
    if rules == [] then (m, false)
    else
      var init := rules[..|rules| - 1];
      var last := rules[|rules| - 1];
      var (m1, failed) := MergeRules(m, init);
      assert forall j :: 0 <= j < |init| ==> init[j] == rules[j];
      if failed then (m1, true)
      else if last.None? then (m1, false)
      else if last.value.location.None? then (m1, true)
      else (Put(m1, LocationId(last.value), last.value), false)
  }

  /** `rules[j]` is a rule, and no later rule of `rules` has its location. */
  ghost predicate LatestForItsLocation(rules: seq<Option<ShippingRule>>, j: int)
    requires 0 <= j < |rules|
    requires AllLocated(rules)
    requires rules[j].Some?
  {
    forall j' :: j < j' < |rules| && rules[j'].Some? ==> LocationId(rules[j'].value) != LocationId(rules[j].value)
  }

  /** Rules are keyed by location id and a later rule for a location overwrites an
      earlier one: after a merge without failure every location holds its latest
      rule, and locations no rule mentions keep what they had. */
  lemma {:induction false} MergeRulesLatestWins(m: LinkedMap<int, ShippingRule>, rules: seq<Option<ShippingRule>>)
    requires Valid(m)
    requires AllLocated(rules)
    ensures var r := MergeRules(m, rules).0;
            && (forall j :: 0 <= j < |rules| && rules[j].Some? && LatestForItsLocation(rules, j) ==>
                  LocationId(rules[j].value) in r.entries && r.entries[LocationId(rules[j].value)] == rules[j].value)
            && (forall k :: k in m.entries && (forall j :: 0 <= j < |rules| && rules[j].Some? ==> LocationId(rules[j].value) != k) ==>
                  k in r.entries && r.entries[k] == m.entries[k])
    decreases |rules|
  {
    if rules != [] {
      var init := rules[..|rules| - 1];
      var last := rules[|rules| - 1];
      assert forall j :: 0 <= j < |init| ==> init[j] == rules[j];
      assert AllLocated(init);
      MergeRulesLatestWins(m, init);
      var m1 := MergeRules(m, init).0;
      var r := MergeRules(m, rules).0;
      forall j | 0 <= j < |rules| && rules[j].Some? && LatestForItsLocation(rules, j)
        ensures LocationId(rules[j].value) in r.entries && r.entries[LocationId(rules[j].value)] == rules[j].value
      {
        if j < |init| {
          assert LatestForItsLocation(init, j);
        }
      }
    }
  }

  /** A merge adds no key of its own: every key of the result was in the map
      before or is the location id of one of the rules. */
  lemma {:induction false} MergeRulesKeys(m: LinkedMap<int, ShippingRule>, rules: seq<Option<ShippingRule>>)
    requires Valid(m)
    ensures forall k :: k in MergeRules(m, rules).0.entries ==>
              k in m.entries || exists j :: 0 <= j < |rules| && rules[j].Some? && rules[j].value.location.Some? &&
                                            LocationId(rules[j].value) == k
    decreases |rules|
  {
    if rules != [] {
      var init := rules[..|rules| - 1];
      assert forall j :: 0 <= j < |init| ==> init[j] == rules[j];
      MergeRulesKeys(m, init);
      var last := rules[|rules| - 1];
      forall k | k in MergeRules(m, rules).0.entries
        ensures k in m.entries || exists j :: 0 <= j < |rules| && rules[j].Some? && rules[j].value.location.Some? &&
                                              LocationId(rules[j].value) == k
      {
        if k !in MergeRules(m, init).0.entries {
          assert rules[|rules| - 1] == last;
        }
      }
    }
  }

  /** Every non-null rule of `a + b` is located exactly when those of `a` and of
      `b` are. */
  lemma AllLocatedAppend(a: seq<Option<ShippingRule>>, b: seq<Option<ShippingRule>>)
    ensures AllLocated(a + b) <==> AllLocated(a) && AllLocated(b)
  {
    if AllLocated(a + b) {
      forall j | 0 <= j < |a| && a[j].Some? ensures a[j].value.location.Some? {
        assert (a + b)[j] == a[j];
      }
      forall j | 0 <= j < |b| && b[j].Some? ensures b[j].value.location.Some? {
        assert (a + b)[|a| + j] == b[j];
      }
    }
  }

  /** Merging is done rule by rule: once a stretch of rules has merged without
      failure, merging more rules continues from the map it left. */
  lemma {:induction false} MergeRulesAppend(m: LinkedMap<int, ShippingRule>, a: seq<Option<ShippingRule>>,
                                            b: seq<Option<ShippingRule>>)
    requires Valid(m)
    requires !MergeRules(m, a).1
    ensures MergeRules(m, a + b) == MergeRules(MergeRules(m, a).0, b)
    decreases |b|
  {
    if b == [] {
      assert a + b == a;
    } else {
      var b' := b[..|b| - 1];
      assert (a + b)[..|a + b| - 1] == a + b';
      assert (a + b)[|a + b| - 1] == b[|b| - 1];
      MergeRulesAppend(m, a, b');
    }
  }

  /** A merge that fails keeps the puts of the rules before the first rule without
      a location, and no more. */
  lemma {:induction false} MergeRulesFailure(m: LinkedMap<int, ShippingRule>, rules: seq<Option<ShippingRule>>, j: nat)
    requires Valid(m)
    requires j < |rules| && rules[j].Some? && rules[j].value.location.None?
    requires AllLocated(rules[..j])
    ensures MergeRules(m, rules) == (MergeRules(m, rules[..j]).0, true)
    decreases |rules|
  {
    if j == |rules| - 1 {
      assert rules[..|rules| - 1] == rules[..j];
    } else {
      var init := rules[..|rules| - 1];
      assert init[..j] == rules[..j];
      MergeRulesFailure(m, init, j);
    }
  }

  /** What processing the answer to the query at `index` does: the states it emits
      and the map it leaves. A failed query emits an error state with its message;
      an answer whose rules merge emits the merged rules only when it is the
      answer for the last reward; a rule without a location fails the answer like
      a failed query, after the puts before it. */
  function Step(m: LinkedMap<int, ShippingRule>, outcome: Remote<ShippingRulesEnvelope>, isLast: bool)
    : (r: (seq<ShippingRulesState>, LinkedMap<int, ShippingRule>))
    requires Valid(m)
    ensures Valid(r.1)
    ensures |r.0| <= 1
    ensures outcome.Failed? ==> r == ([ErrorState(outcome.cause.message)], m)
    ensures outcome.Done? && AllLocated(outcome.value.shippingRules.GetOr([])) ==>
              r.0 == (if isLast then [ShippingRulesState(Values(r.1), false, None)] else [])
    ensures outcome.Done? && !AllLocated(outcome.value.shippingRules.GetOr([])) ==>
              r.0 == [ErrorState(Some(RequiredValueWasNull))]
    ensures outcome.Done? ==> r.1 == MergeRules(m, outcome.value.shippingRules.GetOr([])).0
    ensures forall s :: s in r.0 ==> s == ErrorState(s.error) || (isLast && s == ShippingRulesState(Values(r.1), false, None))
  {
    match outcome
    case Failed(t) => ([ErrorState(t.message)], m)
    case Done(envelope) =>
      var (m1, failed) := MergeRules(m, envelope.shippingRules.GetOr([]));
      if failed then ([ErrorState(Some(RequiredValueWasNull))], m1)
      else if isLast then ([ShippingRulesState(Values(m1), false, None)], m1)
      else ([], m1)
  }

  /** The states emitted and the map left by the answers to the first `|outcomes|`
      of `count` queries. */
  function Run(outcomes: seq<Remote<ShippingRulesEnvelope>>, count: nat)
    : (r: (seq<ShippingRulesState>, LinkedMap<int, ShippingRule>))
    ensures Valid(r.1)
    ensures |r.0| <= |outcomes|
    decreases |outcomes|
  {
    if outcomes == [] then ([], Empty())
    else
      var (emitted, m) := Run(outcomes[..|outcomes| - 1], count);
      var (more, m1) := Step(m, outcomes[|outcomes| - 1], |outcomes| == count);
      (emitted + more, m1)
  }

  /** The rules of every answer of a run, in order, a failed query contributing
      none and a null list counting as empty. */
  ghost function AllRules(outcomes: seq<Remote<ShippingRulesEnvelope>>): seq<Option<ShippingRule>>
    decreases |outcomes|
  {
    if outcomes == [] then []
    else
      var last := outcomes[|outcomes| - 1];
      AllRules(outcomes[..|outcomes| - 1]) + (if last.Done? then last.value.shippingRules.GetOr([]) else [])
  }

  /** When every query succeeds and every rule has a location, all answers go into
      one map in order: the run leaves the merge of all their rules, emits nothing
      before the last answer, and the last answer emits exactly that map's values. */
  lemma {:induction false} RunMergesAll(outcomes: seq<Remote<ShippingRulesEnvelope>>, count: nat)
    requires |outcomes| <= count
    requires forall i :: 0 <= i < |outcomes| ==> outcomes[i].Done?
    requires AllLocated(AllRules(outcomes))
    ensures Run(outcomes, count).1 == MergeRules(Empty(), AllRules(outcomes)).0
    ensures Run(outcomes, count).0 ==
              if 0 < |outcomes| == count then [ShippingRulesState(Values(Run(outcomes, count).1), false, None)] else []
    decreases |outcomes|
  {
    if outcomes != [] {
      var init := outcomes[..|outcomes| - 1];
      var last := outcomes[|outcomes| - 1];
      var rules := last.value.shippingRules.GetOr([]);
      assert forall i :: 0 <= i < |init| ==> init[i] == outcomes[i];
      AllLocatedAppend(AllRules(init), rules);
      RunMergesAll(init, count);
      MergeRulesAppend(Empty(), AllRules(init), rules);
    }
  }

  /** Merged rules are published at most once, by the answer for the last reward,
      as the last state of the run: every other state a run emits is an error state
      (no rules, not loading). */
  lemma {:induction false} ResultOnlyAtEnd(outcomes: seq<Remote<ShippingRulesEnvelope>>, count: nat)
    requires |outcomes| <= count
    ensures var em := Run(outcomes, count).0;
            forall j :: 0 <= j < |em| && (|outcomes| < count || j < |em| - 1) ==> em[j] == ErrorState(em[j].error)
    ensures var em := Run(outcomes, count).0;
            forall j :: 0 <= j < |em| ==> em[j] == ErrorState(em[j].error) || em[j] == ShippingRulesState(Values(Run(outcomes, count).1), false, None)
    decreases |outcomes|
  {
    if outcomes != [] {
      var init := outcomes[..|outcomes| - 1];
      ResultOnlyAtEnd(init, count);
      var before := Run(init, count);
      assert |init| < count;
      assert var em := Run(init, count).0; forall j :: 0 <= j < |em| && (|init| < count || j < |em| - 1) ==> em[j] == ErrorState(em[j].error);
      assert forall k :: 0 <= k < |before.0| ==> before.0[k] == ErrorState(before.0[k].error);
      var step := Step(before.1, outcomes[|outcomes| - 1], |outcomes| == count);
      var em := Run(outcomes, count).0;
      assert em == before.0 + step.0;
      forall j | 0 <= j < |em| && (|outcomes| < count || j < |em| - 1) ensures em[j] == ErrorState(em[j].error) {
        if j < |before.0| {
          assert |init| < count;
          assert em[j] == before.0[j];
          assert before.0[j] == ErrorState(before.0[j].error);
        } else {
          assert |step.0| <= 1;
          assert em[j] == step.0[j - |before.0|] && em[j] in step.0;
          assert |outcomes| < count;
        }
      }
      forall j | 0 <= j < |em| ensures em[j] == ErrorState(em[j].error) || em[j] == ShippingRulesState(Values(Run(outcomes, count).1), false, None) {
        if j < |before.0| {
          assert em[j] == before.0[j];
        } else {
          assert em[j] == step.0[j - |before.0|] && em[j] in step.0;
        }
      }
    }
  }

  /** One answer, processed as `invoke`'s loop body does: the rules of a successful
      answer are put into the map one by one, stopping at the first rule without a
      location. */
  method ProcessAnswer(rules: LinkedMap<int, ShippingRule>, outcome: Remote<ShippingRulesEnvelope>, isLast: bool)
    returns (emitted: seq<ShippingRulesState>, after: LinkedMap<int, ShippingRule>)
    requires Valid(rules)
    ensures (emitted, after) == Step(rules, outcome, isLast)
  {
    match outcome {
      case Failed(t) =>
        emitted, after := [ErrorState(t.message)], rules;
      case Done(envelope) =>
        var list := envelope.shippingRules.GetOr([]);
        var failed := false;
        after := rules;
        var j := 0;
        while j < |list| && !failed
          invariant 0 <= j <= |list|
          invariant Valid(after)
          invariant (after, failed) == MergeRules(rules, list[..j])
        {
          assert list[..j + 1][..j] == list[..j];
          if list[j].Some? {
            if list[j].value.location.None? {
              failed := true;
            } else {
              after := Put(after, LocationId(list[j].value), list[j].value);
            }
          }
          j := j + 1;
        }
        if failed {
          MergeRulesStopsAtFailure(rules, list, j);
          emitted := [ErrorState(Some(RequiredValueWasNull))];
        } else {
          assert list[..j] == list;
          emitted := if isLast then [ShippingRulesState(Values(after), false, None)] else [];
        }
    }
  }

  /** The use case for one project. */
  class GetShippingRulesUseCase {
    const worldwide: Reward -> bool
    const restricted: Reward -> bool
    /** The rewards `init` chose to query. */
    const rewardsToQuery: seq<Reward>
    /** Every value the state flow has held, starting with its initial value. The
        flow keeps only values that differ from its current one, so an emit equal
        to the current state (two failures with the same message, say) adds
        nothing. */
    var states: seq<ShippingRulesState>

    ghost predicate Valid()
      reads this
    {
      states != [] && states[0] == DefaultState && NoConsecutiveRepeats(states)
    }

    /** The published state: the latest value emitted into the flow. */
    function State(): (s: ShippingRulesState)
      reads this
      requires Valid()
      ensures s in states
      ensures s == states[|states| - 1]
    {
      states[|states| - 1]
    }

    constructor (rewards: Option<seq<Reward>>, worldwide: Reward -> bool, restricted: Reward -> bool)
      ensures Valid()
      ensures this.worldwide == worldwide && this.restricted == restricted
      ensures rewardsToQuery == Plan(rewards, worldwide, restricted)
      ensures states == [DefaultState]
    {
      this.worldwide := worldwide;
      this.restricted := restricted;
      var q := PlanQueries(rewards, worldwide, restricted);
      rewardsToQuery := q;
      states := [DefaultState];
    }

    /** `invoke`: with rewards to query, emit the loading state, then process the
        answer to each query in order with one map of rules shared by all of them;
        with nothing to query, do nothing. `outcomes[i]` is the answer to the query
        for `rewardsToQuery[i]`. */
    method Invoke(outcomes: seq<Remote<ShippingRulesEnvelope>>)
      requires Valid()
      requires |outcomes| == |rewardsToQuery|
      modifies this`states
      ensures Valid()
      ensures rewardsToQuery == [] ==> states == old(states)
      ensures rewardsToQuery != [] ==> states == AppendAllDistinct(old(states), [LoadingState] + Run(outcomes, |outcomes|).0)
    {
      if rewardsToQuery != [] {
        var rules: LinkedMap<int, ShippingRule> := Empty();
        ghost var start := states;
        states := AppendDistinct(states, LoadingState);
        assert states == AppendAllDistinct(start, [LoadingState]);
        ghost var before := states;
        ghost var emitted: seq<ShippingRulesState> := [];
        var n := |outcomes|;
        assert outcomes[..0] == [];
        for i := 0 to n
          invariant LinkedMaps.Valid(rules)
          invariant states == AppendAllDistinct(before, emitted)
          invariant Run(outcomes[..i], n) == (emitted, rules)
        {
          ghost var prefix := outcomes[..i + 1];
          assert prefix[..i] == outcomes[..i] && prefix[i] == outcomes[i];
          var more;
          more, rules := ProcessAnswer(rules, outcomes[i], i + 1 == n);
          AppendAllDistinctAppend(before, emitted, more);
          emitted := emitted + more;
          states := AppendAllDistinct(states, more);
        }
        assert outcomes[..n] == outcomes;
        AppendAllDistinctAppend(start, [LoadingState], emitted);
      }
    }
  }

  /** Once a merge has failed, the rules after the failure change nothing. */
  lemma {:induction false} MergeRulesStopsAtFailure(m: LinkedMap<int, ShippingRule>, rules: seq<Option<ShippingRule>>, j: nat)
    requires Valid(m)
    requires j <= |rules|
    requires MergeRules(m, rules[..j]).1
    ensures MergeRules(m, rules) == MergeRules(m, rules[..j])
    decreases |rules| - j
  {
    if j < |rules| {
      assert rules[..j + 1][..j] == rules[..j];
      MergeRulesStopsAtFailure(m, rules, j + 1);
    } else {
      assert rules[..j] == rules;
    }
  }
}
