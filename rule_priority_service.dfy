/**
 * internal/services/rule_priority_service.go: batch priority updates,
 * reordering, the next free priority, and moving a rule one step up or down
 * by swapping priorities with its nearest neighbour, each inside a
 * transaction that commits all of its statements or none.
 */
module RulePriorityService {
  import opened Common
  import opened Models

  /**
   * The database failures a transaction may meet: whether the statement with
   * the given index fails, and whether the commit does.
   */
  datatype TxFaults = TxFaults(statementFails: nat -> bool, commitFails: bool)

  /**
   * One `Updates` statement on the rule with this id: it sets priority and
   * updated_at, and does nothing (without error) when no such rule exists.
   */
  function SetPriority(rules: map<Uuid, Rule>, id: Uuid, priority: int, now: int): (r: map<Uuid, Rule>)
    ensures r.Keys == rules.Keys
    ensures forall k :: k in rules && k != id ==> r[k] == rules[k]
    ensures id in rules ==> r[id] == rules[id].(priority := priority, updatedAt := now)
  {
    if id in rules then rules[id := rules[id].(priority := priority, updatedAt := now)] else rules
  }

  /** The table after the statements of a batch, applied first to last. */
  function Applied(rules: map<Uuid, Rule>, updates: seq<(Uuid, int)>, now: int): map<Uuid, Rule>
    decreases |updates|
  {
    if |updates| == 0 then rules
    else
      var last := updates[|updates| - 1];
      SetPriority(Applied(rules, updates[..|updates| - 1], now), last.0, last.1, now)
  }

  /** A batch keeps the set of rules and changes no rule's name. */
  lemma {:induction false} AppliedKeys(rules: map<Uuid, Rule>, updates: seq<(Uuid, int)>, now: int)
    ensures Applied(rules, updates, now).Keys == rules.Keys
    ensures forall k :: k in rules ==> Applied(rules, updates, now)[k].name == rules[k].name
    decreases |updates|
  {
    if |updates| > 0 {
      AppliedKeys(rules, updates[..|updates| - 1], now);
    }
  }

  /** A rule that no statement of the batch names is untouched. */
  lemma {:induction false} AppliedUntouched(rules: map<Uuid, Rule>, updates: seq<(Uuid, int)>, now: int, k: Uuid)
    requires k in rules
    requires forall j :: 0 <= j < |updates| ==> updates[j].0 != k
    ensures k in Applied(rules, updates, now) && Applied(rules, updates, now)[k] == rules[k]
    decreases |updates|
  {
    if |updates| > 0 {
      var front := updates[..|updates| - 1];
      assert forall j :: 0 <= j < |front| ==> front[j] == updates[j];
      AppliedUntouched(rules, front, now, k);
    }
  }

  /** A named rule ends with the priority of the last statement that names it. */
  lemma {:induction false} AppliedLast(rules: map<Uuid, Rule>, updates: seq<(Uuid, int)>, now: int, k: Uuid, j: nat)
    requires k in rules && j < |updates| && updates[j].0 == k
    requires forall j' :: j < j' < |updates| ==> updates[j'].0 != k
    ensures k in Applied(rules, updates, now)
    ensures Applied(rules, updates, now)[k] == rules[k].(priority := updates[j].1, updatedAt := now)
    decreases |updates|
  {
    var n := |updates| - 1;
    var front := updates[..n];
    AppliedKeys(rules, front, now);
    if j < n {
      assert updates[n].0 != k;
      assert front[j] == updates[j];
      assert forall j' :: j < j' < |front| ==> front[j'] == updates[j'];
      AppliedLast(rules, front, now, k, j);
    }
  }

  /** The statements ReorderRules issues: the i-th listed rule gets priority i + 1. */
  function Numbered(ruleIds: seq<Uuid>): (r: seq<(Uuid, int)>)
    ensures |r| == |ruleIds| && forall i :: 0 <= i < |ruleIds| ==> r[i] == (ruleIds[i], i + 1)
  {
    seq(|ruleIds|, i requires 0 <= i < |ruleIds| => (ruleIds[i], i + 1))
  }

  /** Numbering one more id adds its statement at the end, leaving the earlier ones in front. */
  lemma NumberedSnoc(ruleIds: seq<Uuid>, i: nat)
    requires i < |ruleIds|
    ensures |Numbered(ruleIds[..i + 1])| == i + 1
    ensures Numbered(ruleIds[..i + 1])[..i] == Numbered(ruleIds[..i])
    ensures Numbered(ruleIds[..i + 1])[i] == (ruleIds[i], i + 1)
  {
    assert Numbered(ruleIds[..i + 1])[..i] == Numbered(ruleIds[..i]);
  }

  /**
   * ReorderRules on distinct ids: the i-th id's rule gets priority i + 1 and
   * every rule not listed is untouched.
   */
  lemma ReorderSpec(rules: map<Uuid, Rule>, ruleIds: seq<Uuid>, now: int)
    requires forall i, j :: 0 <= i < j < |ruleIds| ==> ruleIds[i] != ruleIds[j]
    ensures Applied(rules, Numbered(ruleIds), now).Keys == rules.Keys
    ensures forall i :: 0 <= i < |ruleIds| && ruleIds[i] in rules ==>
      Applied(rules, Numbered(ruleIds), now)[ruleIds[i]].priority == i + 1
    ensures forall k :: k in rules && k !in ruleIds ==> Applied(rules, Numbered(ruleIds), now)[k] == rules[k]
  {
    var us := Numbered(ruleIds);
    AppliedKeys(rules, us, now);
    forall i | 0 <= i < |ruleIds| && ruleIds[i] in rules
      ensures Applied(rules, us, now)[ruleIds[i]].priority == i + 1
    {
      AppliedLast(rules, us, now, ruleIds[i], i);
    }
    forall k | k in rules && k !in ruleIds
      ensures Applied(rules, us, now)[k] == rules[k]
    {
      AppliedUntouched(rules, us, now, k);
    }
  }

  /** The rules with priority p. */
  ghost function WithPriority(rules: map<Uuid, Rule>, p: int): set<Uuid> {
    set k | k in rules && rules[k].priority == p
  }

  /** How many rules have priority p. */
  ghost function CountWithPriority(rules: map<Uuid, Rule>, p: int): nat {
    |WithPriority(rules, p)|
  }

  /** A table whose priorities differ from another's only by exchanging two rules' has the same counts. */
  lemma ExchangeKeepsCount(rules: map<Uuid, Rule>, swapped: map<Uuid, Rule>, a: Uuid, b: Uuid, p: int)
    requires swapped.Keys == rules.Keys && a in rules && b in rules
    requires swapped[a].priority == rules[b].priority && swapped[b].priority == rules[a].priority
    requires forall k :: k in rules && k != a && k != b ==> swapped[k].priority == rules[k].priority
    ensures CountWithPriority(swapped, p) == CountWithPriority(rules, p)
  {
    if rules[a].priority == rules[b].priority || (rules[a].priority != p && rules[b].priority != p) {
      ExchangeUntouched(rules, swapped, a, b, p);
    } else if rules[a].priority == p {
      ExchangeMoves(rules, swapped, a, b, p);
    } else {
      ExchangeMoves(rules, swapped, b, a, p);
    }
  }

  /** When the exchange does not touch priority p, the rules with p stay the same. */
  lemma ExchangeUntouched(rules: map<Uuid, Rule>, swapped: map<Uuid, Rule>, a: Uuid, b: Uuid, p: int)
    requires swapped.Keys == rules.Keys && a in rules && b in rules
    requires swapped[a].priority == rules[b].priority && swapped[b].priority == rules[a].priority
    requires forall k :: k in rules && k != a && k != b ==> swapped[k].priority == rules[k].priority
    requires rules[a].priority == rules[b].priority || (rules[a].priority != p && rules[b].priority != p)
    ensures WithPriority(swapped, p) == WithPriority(rules, p)
  {
    var before := WithPriority(rules, p);
    var after := WithPriority(swapped, p);
    forall k ensures k in after <==> k in before {
      if k in rules && k != a && k != b {
        assert swapped[k].priority == rules[k].priority;
      }
    }
  }

  /** When a had priority p and b did not, the exchange moves p from a to b. */
  lemma ExchangeMoves(rules: map<Uuid, Rule>, swapped: map<Uuid, Rule>, a: Uuid, b: Uuid, p: int)
    requires swapped.Keys == rules.Keys && a in rules && b in rules
    requires swapped[a].priority == rules[b].priority && swapped[b].priority == rules[a].priority
    requires forall k :: k in rules && k != a && k != b ==> swapped[k].priority == rules[k].priority
    requires rules[a].priority == p && rules[b].priority != p
    ensures CountWithPriority(swapped, p) == CountWithPriority(rules, p)
  {
    var before := WithPriority(rules, p);
    var after := WithPriority(swapped, p);
    forall k ensures k in after <==> k in before - {a} + {b} {
      if k in rules && k != a && k != b {
        assert swapped[k].priority == rules[k].priority;
      }
    }
    assert after == before - {a} + {b};
    assert |before - {a}| == |before| - 1;
  }

  /** Exchanging two rules' priorities leaves the multiset of priorities as it was. */
  lemma SwapKeepsPriorities(rules: map<Uuid, Rule>, a: Uuid, b: Uuid, now: int, p: int)
    requires a in rules && b in rules
    ensures var swapped := SetPriority(SetPriority(rules, a, rules[b].priority, now), b, rules[a].priority, now);
      CountWithPriority(swapped, p) == CountWithPriority(rules, p)
  {
    var swapped := SetPriority(SetPriority(rules, a, rules[b].priority, now), b, rules[a].priority, now);
    if a == b {
      assert forall k :: k in rules ==> swapped[k].priority == rules[k].priority;
      assert WithPriority(swapped, p) == WithPriority(rules, p);
    } else {
      ExchangeKeepsCount(rules, swapped, a, b, p);
    }
  }

  /** n is a rule with the greatest priority below id's: the row `priority < p ORDER BY priority DESC` returns first. */
  predicate NearestBelow(rules: map<Uuid, Rule>, id: Uuid, n: Uuid)
    requires id in rules
  {
    n in rules && rules[n].priority < rules[id].priority
    && forall k :: k in rules && rules[k].priority < rules[id].priority ==> rules[k].priority <= rules[n].priority
  }

  /** n is a rule with the least priority above id's. */
  predicate NearestAbove(rules: map<Uuid, Rule>, id: Uuid, n: Uuid)
    requires id in rules
  {
    n in rules && rules[n].priority > rules[id].priority
    && forall k :: k in rules && rules[k].priority > rules[id].priority ==> rules[k].priority >= rules[n].priority
  }

  /** The rules table of a RulePriorityService. */
  class RuleTable {
    var rules: map<Uuid, Rule>

    constructor (rules: map<Uuid, Rule>)
      ensures this.rules == rules
    {
      this.rules := rules;
    }

    /**
     * UpdateRulePriorities: run the statements in order inside one
     * transaction; the first failing statement, or a failing commit, leaves
     * the table as it was.
     */
    method UpdateRulePriorities(updates: seq<(Uuid, int)>, now: int, faults: TxFaults) returns (r: Verdict)
      modifies this
      ensures var ok := (forall i :: 0 <= i < |updates| ==> !faults.statementFails(i)) && !faults.commitFails;
        (ok ==> r == Accept && rules == Applied(old(rules), updates, now))
        && (!ok ==> r != Accept && rules == old(rules))
      ensures (exists i :: 0 <= i < |updates| && faults.statementFails(i)) ==>
        r == Reject("failed to update rule priority")
      ensures (forall i :: 0 <= i < |updates| ==> !faults.statementFails(i)) && faults.commitFails ==>
        r == Reject("failed to commit rule priority updates")
    {
      var staged := rules;
      var i := 0;
      while i < |updates|
        invariant 0 <= i <= |updates|
        invariant staged == Applied(rules, updates[..i], now)
        invariant forall j :: 0 <= j < i ==> !faults.statementFails(j)
      {
        if faults.statementFails(i) {
          return Reject("failed to update rule priority");
        }
        assert updates[..i + 1][..i] == updates[..i];
        staged := SetPriority(staged, updates[i].0, updates[i].1, now);
        i := i + 1;
      }
      assert updates[..i] == updates;
      if faults.commitFails {
        return Reject("failed to commit rule priority updates");
      }
      rules := staged;
      r := Accept;
    }

    /**
     * ReorderRules: its own transaction, in which the rule at position i of
     * the list gets priority i + 1; all or nothing, with its own messages.
     */
    method ReorderRules(ruleIds: seq<Uuid>, now: int, faults: TxFaults) returns (r: Verdict)
      modifies this
      ensures var ok := (forall i :: 0 <= i < |ruleIds| ==> !faults.statementFails(i)) && !faults.commitFails;
        (ok ==> r == Accept && rules == Applied(old(rules), Numbered(ruleIds), now))
        && (!ok ==> r != Accept && rules == old(rules))
      ensures (exists i :: 0 <= i < |ruleIds| && faults.statementFails(i)) ==>
        r == Reject("failed to reorder rule")
      ensures (forall i :: 0 <= i < |ruleIds| ==> !faults.statementFails(i)) && faults.commitFails ==>
        r == Reject("failed to commit rule reordering")
    {
      var staged := rules;
      var i := 0;
      while i < |ruleIds|
        invariant 0 <= i <= |ruleIds|
        invariant rules == old(rules)
        invariant staged == Applied(rules, Numbered(ruleIds[..i]), now)
        invariant forall j :: 0 <= j < i ==> !faults.statementFails(j)
      {
        var priority := i + 1;
        if faults.statementFails(i) {
          return Reject("failed to reorder rule");
        }
        NumberedSnoc(ruleIds, i);
        staged := SetPriority(staged, ruleIds[i], priority, now);
        i := i + 1;
      }
      assert ruleIds[..i] == ruleIds;
      if faults.commitFails {
        return Reject("failed to commit rule reordering");
      }
      rules := staged;
      r := Accept;
    }

    /**
     * GetNextPriority: COALESCE(MAX(priority), 0) + 1, so 1 on an empty table
     * and one above the highest priority otherwise.
     */
    method GetNextPriority() returns (next: int)
      ensures rules == map[] ==> next == 1
      ensures forall k :: k in rules ==> rules[k].priority < next
      ensures rules != map[] ==> exists k :: k in rules && rules[k].priority == next - 1
    {
      var maxPriority := 0;
      var seen: set<Uuid> := {};
      var todo := rules.Keys;
      while todo != {}
        invariant todo + seen == rules.Keys && todo !! seen
        invariant forall k :: k in seen ==> rules[k].priority <= maxPriority
        invariant seen == {} ==> maxPriority == 0
        invariant seen != {} ==> exists k :: k in seen && rules[k].priority == maxPriority
        decreases todo
      {
        var k :| k in todo;
        if seen == {} || rules[k].priority > maxPriority {
          maxPriority := rules[k].priority;
        }
        seen := seen + {k};
        todo := todo - {k};
      }
      if seen == {} {
        assert rules.Keys == {};
      }
      next := maxPriority + 1;
    }

    /**
     * The query `priority < p ORDER BY priority DESC`, first row: a rule with
     * the greatest priority below p. gorm's First then breaks a tie by primary
     * key; the model leaves the choice among tied rules open on purpose, so
     * its contracts hold whichever tied rule is taken.
     */
    method HighestBelow(p: int) returns (found: Option<Uuid>)
      ensures found.None? <==> forall k :: k in rules ==> rules[k].priority >= p
      ensures found.Some? ==> (found.value in rules && rules[found.value].priority < p
        && forall k :: k in rules && rules[k].priority < p ==> rules[k].priority <= rules[found.value].priority)
    {
      found := None;
      var todo := rules.Keys;
      while todo != {}
        invariant todo <= rules.Keys
        invariant found.None? ==> forall k :: k in rules.Keys - todo ==> rules[k].priority >= p
        invariant found.Some? ==> (found.value in rules && rules[found.value].priority < p
          && forall k :: k in rules.Keys - todo && rules[k].priority < p ==> rules[k].priority <= rules[found.value].priority)
        decreases todo
      {
        var k :| k in todo;
        if rules[k].priority < p && (found.None? || rules[k].priority > rules[found.value].priority) {
          found := Some(k);
        }
        todo := todo - {k};
      }
    }

    /**
     * The query `priority > p ORDER BY priority ASC`, first row: a rule with
     * the least priority above p, the choice among tied rules left open as in
     * HighestBelow.
     */
    method LowestAbove(p: int) returns (found: Option<Uuid>)
      ensures found.None? <==> forall k :: k in rules ==> rules[k].priority <= p
      ensures found.Some? ==> (found.value in rules && rules[found.value].priority > p
        && forall k :: k in rules && rules[k].priority > p ==> rules[k].priority >= rules[found.value].priority)
    {
      found := None;
      var todo := rules.Keys;
      while todo != {}
        invariant todo <= rules.Keys
        invariant found.None? ==> forall k :: k in rules.Keys - todo ==> rules[k].priority <= p
        invariant found.Some? ==> (found.value in rules && rules[found.value].priority > p
          && forall k :: k in rules.Keys - todo && rules[k].priority > p ==> rules[k].priority >= rules[found.value].priority)
        decreases todo
      {
        var k :| k in todo;
        if rules[k].priority > p && (found.None? || rules[k].priority < rules[found.value].priority) {
          found := Some(k);
        }
        todo := todo - {k};
      }
    }

    /**
     * swapPriorities: the first rule takes the second priority, then the
     * second rule the first, in one transaction.
     */
    method SwapPriorities(id1: Uuid, id2: Uuid, priority1: int, priority2: int, now: int, faults: TxFaults)
      returns (r: Verdict)
      modifies this
      ensures var ok := !faults.statementFails(0) && !faults.statementFails(1) && !faults.commitFails;
        (ok ==> r == Accept && rules == SetPriority(SetPriority(old(rules), id1, priority2, now), id2, priority1, now))
        && (!ok ==> r != Accept && rules == old(rules))
      ensures faults.statementFails(0) ==> r == Reject("failed to update rule1 priority")
      ensures !faults.statementFails(0) && faults.statementFails(1) ==> r == Reject("failed to update rule2 priority")
      ensures !faults.statementFails(0) && !faults.statementFails(1) && faults.commitFails ==>
        r == Reject("failed to commit priority swap")
    {
      if faults.statementFails(0) {
        return Reject("failed to update rule1 priority");
      }
      var staged := SetPriority(rules, id1, priority2, now);
      if faults.statementFails(1) {
        return Reject("failed to update rule2 priority");
      }
      staged := SetPriority(staged, id2, priority1, now);
      if faults.commitFails {
        return Reject("failed to commit priority swap");
      }
      rules := staged;
      r := Accept;
    }

    /**
     * MovePriorityUp: an unknown rule is an error; a rule with nothing below
     * it stays where it is; otherwise it swaps priorities with a rule whose
     * priority is the greatest below its own.
     */
    method MovePriorityUp(id: Uuid, now: int, faults: TxFaults) returns (r: Verdict)
      modifies this
      ensures id !in old(rules) ==> r == Reject("failed to get current rule") && rules == old(rules)
      ensures id in old(rules) && (forall k :: k in old(rules) ==> old(rules)[k].priority >= old(rules)[id].priority) ==>
        r == Accept && rules == old(rules)
      ensures id in old(rules) && (exists k :: k in old(rules) && old(rules)[k].priority < old(rules)[id].priority) ==>
        var ok := !faults.statementFails(0) && !faults.statementFails(1) && !faults.commitFails;
        (ok ==>
           r == Accept &&
           exists prev ::
             NearestBelow(old(rules), id, prev) &&
             rules == SetPriority(SetPriority(old(rules), id, old(rules)[prev].priority, now), prev, old(rules)[id].priority, now))
        && (!ok ==> r != Accept)
        && (faults.statementFails(0) ==> r == Reject("failed to update rule1 priority"))
        && (!faults.statementFails(0) && faults.statementFails(1) ==> r == Reject("failed to update rule2 priority"))
        && (!faults.statementFails(0) && !faults.statementFails(1) && faults.commitFails ==>
              r == Reject("failed to commit priority swap"))
      ensures r != Accept ==> rules == old(rules)
    {
      if id !in rules {
        return Reject("failed to get current rule");
      }
      var current := rules[id];
      var prev := HighestBelow(current.priority);
      if prev.None? {
        return Accept;
      }
      var prevRule := rules[prev.value];
      r := SwapPriorities(id, prev.value, current.priority, prevRule.priority, now, faults);
    }

    /**
     * MovePriorityDown: an unknown rule is an error; a rule with nothing above
     * it stays where it is; otherwise it swaps priorities with a rule whose
     * priority is the least above its own.
     */
    method MovePriorityDown(id: Uuid, now: int, faults: TxFaults) returns (r: Verdict)
      modifies this
      ensures id !in old(rules) ==> r == Reject("failed to get current rule") && rules == old(rules)
      ensures id in old(rules) && (forall k :: k in old(rules) ==> old(rules)[k].priority <= old(rules)[id].priority) ==>
        r == Accept && rules == old(rules)
      ensures id in old(rules) && (exists k :: k in old(rules) && old(rules)[k].priority > old(rules)[id].priority) ==>
        var ok := !faults.statementFails(0) && !faults.statementFails(1) && !faults.commitFails;
        (ok ==>
           r == Accept &&
           exists next ::
             NearestAbove(old(rules), id, next) &&
             rules == SetPriority(SetPriority(old(rules), id, old(rules)[next].priority, now), next, old(rules)[id].priority, now))
        && (!ok ==> r != Accept)
        && (faults.statementFails(0) ==> r == Reject("failed to update rule1 priority"))
        && (!faults.statementFails(0) && faults.statementFails(1) ==> r == Reject("failed to update rule2 priority"))
        && (!faults.statementFails(0) && !faults.statementFails(1) && faults.commitFails ==>
              r == Reject("failed to commit priority swap"))
      ensures r != Accept ==> rules == old(rules)
    {
      if id !in rules {
        return Reject("failed to get current rule");
      }
      var current := rules[id];
      var next := LowestAbove(current.priority);
      if next.None? {
        return Accept;
      }
      var nextRule := rules[next.value];
      r := SwapPriorities(id, next.value, current.priority, nextRule.priority, now, faults);
    }
  }
}
