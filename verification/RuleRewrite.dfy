/**
 * Pointing the rules that settle a loan at its new source account: the rewrite of the
 * condition tree, what the tree means for a row, and the update of schedule and rules.
 */
module RuleRewrite {
  import opened Options

  type AccountId = string

  datatype Operator = Eq | Neq | In | NotIn | OtherOp(name: string)

  datatype Field = AccountIdField | OtherField(name: string)

  datatype Value = NoValue | Scalar(id: string) | List(ids: seq<string>) | OtherValue(text: string)

  datatype Quantifier = All | Any

  datatype Node =
    | Group(quantifier: Quantifier, children: seq<Node>, not: bool)
    | Leaf(field: Field, op: Operator, value: Value)

  // ----- Meaning -----

  function AsList(value: Value): seq<string> { if value.List? then value.ids else [] }

  /** An account leaf for a row on `account`; an operator the field does not take matches nothing. */
  predicate AccountLeafHolds(op: Operator, value: Value, account: AccountId) {
    match op
    case Eq => value == Scalar(account)
    case Neq => value != Scalar(account)
    case In => account in AsList(value)
    case NotIn => account !in AsList(value)
    case OtherOp(_) => false
  }

  /**
   * Whether a condition holds for a row on `account`; `others` answers the leaves on the
   * row's other facts, which stay as they are when only its account differs.
   */
  predicate Holds(node: Node, account: AccountId, others: Node -> bool) {
    match node
    case Group(quantifier, children, not) =>
      var result := if quantifier == All then forall i :: 0 <= i < |children| ==> Holds(children[i], account, others)
                    else exists i :: 0 <= i < |children| && Holds(children[i], account, others);
      if not then !result else result
    case Leaf(field, op, value) =>
      if field == AccountIdField then AccountLeafHolds(op, value, account) else others(node)
  }

  /** An account leaf by its operator: one account, any other, one of a list, none of a list. */
  lemma LeafMeaning(a: AccountId, b: AccountId, ids: seq<AccountId>)
    ensures AccountLeafHolds(Eq, Scalar(a), b) <==> a == b
    ensures AccountLeafHolds(Neq, Scalar(a), b) <==> a != b
    ensures AccountLeafHolds(In, List(ids), b) <==> exists i :: 0 <= i < |ids| && ids[i] == b
    ensures AccountLeafHolds(NotIn, List(ids), b) <==> forall i :: 0 <= i < |ids| ==> ids[i] != b
  {}

  /** A group of nothing holds for all and not for any, and `not` turns the answer of a group around. */
  lemma GroupMeaning(children: seq<Node>, account: AccountId, others: Node -> bool)
    ensures Holds(Group(All, [], false), account, others) && !Holds(Group(Any, [], false), account, others)
    ensures forall q :: Holds(Group(q, children, true), account, others) != Holds(Group(q, children, false), account,
        others)
    ensures Holds(Group(All, children, false), account, others) <==>
            forall i :: 0 <= i < |children| ==> Holds(children[i], account, others)
    ensures Holds(Group(Any, children, false), account, others) <==>
            exists i :: 0 <= i < |children| && Holds(children[i], account, others)
  {}

  predicate Names(value: Value, account: AccountId) {
    value == Scalar(account) || (value.List? && account in value.ids)
  }

  /** What an account operator finds in its value; one that takes no accounts finds nothing. */
  predicate Finds(op: Operator, value: Value, account: AccountId) {
    match op
    case Eq | Neq => value == Scalar(account)
    case In | NotIn => account in AsList(value)
    case OtherOp(_) => false
  }

  /** Some account leaf of the condition finds `account`, and not `other`. */
  predicate FindsOnly(node: Node, account: AccountId, other: AccountId) {
    match node
    case Group(_, children, _) => exists i :: 0 <= i < |children| && FindsOnly(children[i], account, other)
    case Leaf(field, op, value) => field == AccountIdField && Finds(op, value, account) && !Finds(op, value, other)
  }

  /** Some account leaf of the condition names the account. */
  predicate Mentions(node: Node, account: AccountId) {
    match node
    case Group(_, children, _) => exists i :: 0 <= i < |children| && Mentions(children[i], account)
    case Leaf(field, _, value) => field == AccountIdField && Names(value, account)
  }

  // ----- The rewrite -----

  /** Same when the very object given is returned, as the caller tells by identity. */
  datatype Outcome = Same | Changed(node: Node)

  function ResultOf(node: Node, outcome: Outcome): Node { if outcome.Same? then node else outcome.node }

  function Renamed(ids: seq<string>, from: AccountId, to: AccountId): (r: seq<string>)
    ensures forall id :: id in r <==> (id in ids && id != from) || (from in ids && id == to)
  {
    if ids == [] then []
    else
      var k := |ids| - 1;
      Renamed(ids[..k], from, to) + [if ids[k] == from then to else ids[k]]
  }

  /** Each value once, where it comes first. */
  function Distinct(ids: seq<string>): (r: seq<string>)
    ensures forall id :: id in r <==> id in ids
    ensures forall i, j :: 0 <= i < j < |r| ==> r[i] != r[j]
  {
    if ids == [] then []
    else
      var k := |ids| - 1;
      var before := Distinct(ids[..k]);
      if ids[k] in before then before else before + [ids[k]]
  }

  function Replace(node: Node, from: AccountId, to: AccountId): Outcome {
    match node
    case Group(quantifier, children, not) =>
      if forall i :: 0 <= i < |children| ==> Replace(children[i], from, to).Same? then Same
      else
        Changed(Group(quantifier,
                      seq(|children|, i requires 0 <= i < |children| =>
                          ResultOf(children[i], Replace(children[i], from, to))),
                      not))
    case Leaf(field, op, value) =>
      if field != AccountIdField then Same
      else if value == Scalar(from) then Changed(Leaf(field, op, Scalar(to)))
      else if value.List? && from in value.ids then
        Changed(Leaf(field, op, List(Distinct(Renamed(value.ids, from, to)))))
      else Same
  }

  function Replaced(node: Node, from: AccountId, to: AccountId): Node { ResultOf(node, Replace(node, from, to)) }

  // ----- Lists -----

  /** Where a value comes first. */
  function FirstAt(ids: seq<string>, id: string): (k: nat)
    requires id in ids
    ensures k < |ids| && ids[k] == id && id !in ids[..k]
  {
    if ids[0] == id then 0
    else
      assert ids == [ids[0]] + ids[1..];
      var k := 1 + FirstAt(ids[1..], id);
      assert ids[..k] == [ids[0]] + ids[1..][..k - 1];
      k
  }

  lemma FirstIsOne(ids: seq<string>, id: string, k: nat)
    requires k < |ids| && ids[k] == id && id !in ids[..k]
    ensures FirstAt(ids, id) == k
  {}

  lemma FirstInLonger(ids: seq<string>, id: string)
    requires ids != [] && id in ids[..|ids| - 1]
    ensures FirstAt(ids, id) == FirstAt(ids[..|ids| - 1], id)
  {
    var init := ids[..|ids| - 1];
    var k := FirstAt(init, id);
    assert ids[..k] == init[..k];
    FirstIsOne(ids, id, k);
  }

  /** The values keep the order in which they first come. */
  lemma {:induction false} DistinctInOrder(ids: seq<string>)
    ensures forall i, j :: 0 <= i < j < |Distinct(ids)| ==>
                             FirstAt(ids, Distinct(ids)[i]) < FirstAt(ids, Distinct(ids)[j])
  {
    if ids == [] {
    } else {
      var k := |ids| - 1;
      var before, all := Distinct(ids[..k]), Distinct(ids);
      DistinctInOrder(ids[..k]);
      forall i, j | 0 <= i < j < |all| ensures FirstAt(ids, all[i]) < FirstAt(ids, all[j]) {
        assert before[i] in ids[..k];
        FirstInLonger(ids, before[i]);
        if j < |before| {
          assert before[j] in ids[..k];
          FirstInLonger(ids, before[j]);
        } else {
          FirstIsOne(ids, ids[k], k);
        }
      }
    }
  }

  lemma {:induction false} RenamedAt(ids: seq<string>, from: AccountId, to: AccountId)
    ensures |Renamed(ids, from, to)| == |ids|
    ensures forall i :: 0 <= i < |ids| ==> Renamed(ids, from, to)[i] == if ids[i] == from then to else ids[i]
  {
    if ids == [] {
    } else {
      RenamedAt(ids[..|ids| - 1], from, to);
    }
  }

  /**
   * A list that names the old account is rewritten place by place, then left with each account
   * once, where it first comes; one that does not is left alone, repetitions and all.
   */
  lemma ListRewritten(op: Operator, ids: seq<string>, from: AccountId, to: AccountId)
    ensures var leaf := Leaf(AccountIdField, op, List(ids));
            if from !in ids then Replace(leaf, from, to) == Same
            else
              var renamed := seq(|ids|, i requires 0 <= i < |ids| => if ids[i] == from then to else ids[i]);
              var kept := Distinct(renamed);
              && Replace(leaf, from, to) == Changed(Leaf(AccountIdField, op, List(kept)))
              && (forall id :: id in kept <==> id in renamed)
              && (forall i, j :: 0 <= i < j < |kept| ==>
                                   kept[i] != kept[j] && FirstAt(renamed, kept[i]) < FirstAt(renamed, kept[j]))
  {
    RenamedAt(ids, from, to);
    var renamed := seq(|ids|, i requires 0 <= i < |ids| => if ids[i] == from then to else ids[i]);
    assert renamed == Renamed(ids, from, to);
    DistinctInOrder(renamed);
  }

  // ----- What it keeps -----

  /** The object given is returned exactly when no account leaf names the old account. */
  lemma {:induction false} SameExactly(node: Node, from: AccountId, to: AccountId)
    ensures Replace(node, from, to).Same? <==> !Mentions(node, from)
  {
    if node.Leaf? {
    } else {
      forall i | 0 <= i < |node.children|
        ensures Replace(node.children[i], from, to).Same? <==> !Mentions(node.children[i], from)
      {
        SameExactly(node.children[i], from, to);
      }
    }
  }

  /** A group's rewrite is the group of the rewrites of its children. */
  lemma ReplacedGroup(node: Node, from: AccountId, to: AccountId)
    requires node.Group?
    ensures var r := Replaced(node, from, to);
            r.Group? && r.quantifier == node.quantifier && r.not == node.not && |r.children| == |node.children| &&
            forall i :: 0 <= i < |r.children| ==> r.children[i] == Replaced(node.children[i], from, to)
  {}

  /**
   * How a leaf reads an account after the rewrite, in terms of the leaf before it: the
   * new account as the old one was, the old one as an account it does not name, any
   * other as it was.
   */
  ghost predicate ReadsAs(node: Node, from: AccountId, to: AccountId, after: AccountId, before: AccountId) {
    || (after == to && before == from && !FindsOnly(node, to, from))
    || (after != to && after != from && before == after)
    || (after == from && from != to && before != from && !Mentions(node, before))
  }

  /** The meaning is preserved, on every nesting of groups. */
  lemma {:induction false} MeaningKept(node: Node, from: AccountId, to: AccountId, after: AccountId,
      before: AccountId, others: Node -> bool)
    requires ReadsAs(node, from, to, after, before)
    ensures Holds(Replaced(node, from, to), after, others) <==> Holds(node, before, others)
  {
    if node.Leaf? {
    } else {
      var r := Replaced(node, from, to);
      ReplacedGroup(node, from, to);
      forall i | 0 <= i < |node.children|
        ensures Holds(r.children[i], after, others) <==> Holds(node.children[i], before, others)
      {
        MeaningKept(node.children[i], from, to, after, before, others);
      }
    }
  }

  /** At a leaf the new account reads as the old one did exactly when the leaf does not find the new one alone. */
  lemma LeafReadsExactly(node: Node, from: AccountId, to: AccountId, others: Node -> bool)
    requires node.Leaf?
    ensures (Holds(Replaced(node, from, to), to, others) <==> Holds(node, from, others)) <==> !FindsOnly(node, to, from)
  {
    if node.field == AccountIdField {
      var r := Replaced(node, from, to);
      assert Finds(node.op, r.value, to) <==> Finds(node.op, node.value, from) || Finds(node.op, node.value, to);
    }
  }

  /** A condition no leaf of which names the new account without the old holds there as it held on the old one. */
  lemma NewAccountReadsAsOld(node: Node, from: AccountId, to: AccountId, others: Node -> bool)
    requires !FindsOnly(node, to, from)
    ensures Holds(Replaced(node, from, to), to, others) <==> Holds(node, from, others)
  {
    MeaningKept(node, from, to, to, from, others);
  }

  lemma ThirdAccountsUnchanged(node: Node, from: AccountId, to: AccountId, third: AccountId, others: Node -> bool)
    requires third != from && third != to
    ensures Holds(Replaced(node, from, to), third, others) <==> Holds(node, third, others)
  {
    MeaningKept(node, from, to, third, third, others);
  }

  /** The old account is left to be judged like any account the condition never named. */
  lemma OldAccountIsForgotten(node: Node, from: AccountId, to: AccountId, unnamed: AccountId, others: Node -> bool)
    requires from != to && unnamed != from && !Mentions(node, unnamed)
    ensures Holds(Replaced(node, from, to), from, others) <==> Holds(node, unnamed, others)
  {
    MeaningKept(node, from, to, from, unnamed, others);
  }

  /** Which accounts are named afterwards: the others as before, the new one also for the old. */
  lemma {:induction false} MentionsAfter(node: Node, from: AccountId, to: AccountId, account: AccountId)
    ensures Mentions(Replaced(node, from, to), account) <==>
            (Mentions(node, account) && account != from) || (Mentions(node, from) && account == to)
  {
    if node.Leaf? {
    } else {
      ReplacedGroup(node, from, to);
      var r := Replaced(node, from, to);
      forall i | 0 <= i < |node.children|
        ensures Mentions(r.children[i], account) <==>
                (Mentions(node.children[i], account) && account != from) ||
                    (Mentions(node.children[i], from) && account == to)
      {
        MentionsAfter(node.children[i], from, to, account);
      }
    }
  }

  /** Rewriting again finds nothing to rewrite. */
  lemma Idempotent(node: Node, from: AccountId, to: AccountId)
    requires from != to
    ensures Replace(Replaced(node, from, to), from, to).Same?
    ensures Replaced(Replaced(node, from, to), from, to) == Replaced(node, from, to)
  {
    MentionsAfter(node, from, to, from);
    SameExactly(Replaced(node, from, to), from, to);
  }

  /** A leaf finds no account that it does not name. */
  lemma {:induction false} UnmentionedIsNotFound(node: Node, account: AccountId, other: AccountId)
    requires !Mentions(node, account)
    ensures !FindsOnly(node, account, other)
  {
    if node.Leaf? {
    } else {
      forall i | 0 <= i < |node.children| ensures !FindsOnly(node.children[i], account, other) {
        UnmentionedIsNotFound(node.children[i], account, other);
      }
    }
  }

  /**
   * Pointing a rule back undoes the change in meaning: on the old account when no leaf named
   * the new one alone, on the new account when none named it, and on every other.
   */
  lemma BackAgain(node: Node, from: AccountId, to: AccountId, account: AccountId, others: Node -> bool)
    requires from != to
    requires account == from ==> !FindsOnly(node, to, from)
    requires account == to ==> !Mentions(node, to)
    ensures Holds(Replaced(Replaced(node, from, to), to, from), account, others) <==> Holds(node, account, others)
  {
    var there := Replaced(node, from, to);
    MentionsAfter(node, from, to, from);
    if account == from {
      UnmentionedIsNotFound(there, from, to);
      MeaningKept(there, to, from, from, to, others);
      NewAccountReadsAsOld(node, from, to, others);
    } else if account == to {
      // The new account was never named, so any other unnamed account stands for it.
      var unnamed := Unnamed(there, [from, to]);
      MentionsAfter(node, from, to, unnamed);
      MeaningKept(there, to, from, to, unnamed, others);
      ThirdAccountsUnchanged(node, from, to, unnamed, others);
      UnnamedAlike(node, to, unnamed, others);
    } else {
      ThirdAccountsUnchanged(there, to, from, account, others);
      ThirdAccountsUnchanged(node, from, to, account, others);
    }
  }

  /** Two accounts a condition does not name are judged alike. */
  lemma {:induction false} UnnamedAlike(node: Node, a: AccountId, b: AccountId, others: Node -> bool)
    requires !Mentions(node, a) && !Mentions(node, b)
    ensures Holds(node, a, others) <==> Holds(node, b, others)
  {
    if node.Leaf? {
    } else {
      forall i | 0 <= i < |node.children|
        ensures Holds(node.children[i], a, others) <==> Holds(node.children[i], b, others)
      {
        UnnamedAlike(node.children[i], a, b, others);
      }
    }
  }

  /** The length of the longest account named, or in the list. */
  ghost function Longest(ids: seq<string>): (n: nat)
    ensures forall i :: 0 <= i < |ids| ==> |ids[i]| <= n
  {
    if ids == [] then 0
    else
      var k := |ids| - 1;
      var n := Longest(ids[..k]);
      if |ids[k]| > n then |ids[k]| else n
  }

  ghost function LongestNamed(node: Node): (n: nat)
    ensures forall account :: Mentions(node, account) ==> |account| <= n
  {
    match node
    case Group(_, children, _) => LongestIn(node, |children|)
    case Leaf(_, _, value) => if value.List? then Longest(value.ids) else if value.Scalar? then |value.id| else 0
  }

  ghost function LongestIn(node: Node, k: nat): (n: nat)
    requires node.Group? && k <= |node.children|
    ensures forall i, account :: 0 <= i < k && Mentions(node.children[i], account) ==> |account| <= n
    decreases node, 0, k
  {
    if k == 0 then 0
    else
      var n, m := LongestIn(node, k - 1), LongestNamed(node.children[k - 1]);
      if m > n then m else n
  }

  /** There is always an account that is not named. */
  ghost function Unnamed(node: Node, except: seq<string>): (account: AccountId)
    ensures !Mentions(node, account) && account !in except
  {
    var account := seq(LongestNamed(node) + Longest(except) + 1, _ => 'x');
    account
  }

  // ----- The update -----

  datatype Action = SettleLoanInstallment(loanAccountId: AccountId) | OtherAction(name: string)

  datatype Rule = Rule(condition: Node, actions: seq<Action>, revision: nat)

  predicate SettlesLoan(rule: Rule, loan: AccountId) {
    exists i :: 0 <= i < |rule.actions| && rule.actions[i] == SettleLoanInstallment(loan)
  }

  /** A rule settles the loan of its own action only. */
  lemma SettlesExactly(rule: Rule, loan: AccountId)
    ensures SettlesLoan(rule, loan) <==>
            exists i :: 0 <= i < |rule.actions| && rule.actions[i].SettleLoanInstallment? &&
                        rule.actions[i].loanAccountId == loan
  {
    assert forall i :: 0 <= i < |rule.actions| ==>
                         (rule.actions[i] == SettleLoanInstallment(loan) <==>
                          rule.actions[i].SettleLoanInstallment? && rule.actions[i].loanAccountId == loan);
  }

  /** What becomes of one rule. */
  function Reassigned(rule: Rule, loan: AccountId, from: AccountId, to: AccountId): Rule {
    if SettlesLoan(rule, loan) && Mentions(rule.condition, from) then
      rule.(condition := Replaced(rule.condition, from, to), revision := rule.revision + 1)
    else rule
  }

  class Store {
    /** The account each payment schedule draws on, and the user's rules in list order. */
    var schedules: map<string, AccountId>
    var rules: seq<Rule>

    constructor ()
      ensures schedules == map[] && rules == []
    {
      schedules, rules := map[], [];
    }

    method ReassignLoanSource(loan: AccountId, scheduleId: Option<string>, previous: Option<AccountId>, next: AccountId)
      modifies this
      ensures schedules == old(if scheduleId.Some? && scheduleId.value in schedules
                               then schedules[scheduleId.value := next] else schedules)
      ensures |rules| == |old(rules)|
      ensures previous.None? ==> rules == old(rules)
      ensures previous.Some? ==>
                forall i :: 0 <= i < |rules| ==> rules[i] == Reassigned(old(rules[i]), loan, previous.value, next)
      ensures forall i :: 0 <= i < |rules| && SettleLoanInstallment(loan) !in old(rules[i]).actions ==>
                            rules[i] == old(rules[i])
      ensures forall i :: 0 <= i < |rules| ==>
                            rules[i].actions == old(rules[i]).actions &&
                            rules[i].revision == old(rules[i]).revision + if rules[i] == old(rules[i]) then 0 else 1
    {
      if scheduleId.Some? && scheduleId.value in schedules && schedules[scheduleId.value] != next {
        schedules := schedules[scheduleId.value := next];
      }
      if previous.None? { return; }
      var from := previous.value;
      for k := 0 to |rules|
        invariant |rules| == |old(rules)| && schedules == old(if scheduleId.Some? && scheduleId.value in schedules
                                                              then schedules[scheduleId.value := next] else schedules)
        invariant forall i :: 0 <= i < k ==> rules[i] == Reassigned(old(rules[i]), loan, from, next)
        invariant forall i :: k <= i < |rules| ==> rules[i] == old(rules[i])
      {
        var rule := rules[k];
        SameExactly(rule.condition, from, next);
        if SettlesLoan(rule, loan) {
          var outcome := Replace(rule.condition, from, next);
          if outcome.Changed? {
            rules := rules[k := rule.(condition := outcome.node, revision := rule.revision + 1)];
          }
        }
      }
    }
  }

  /** Doing it again touches no rule, so no revision is bumped twice. */
  lemma ReassignedOnce(rule: Rule, loan: AccountId, from: AccountId, to: AccountId)
    requires from != to
    ensures Reassigned(Reassigned(rule, loan, from, to), loan, from, to) == Reassigned(rule, loan, from, to)
    ensures Reassigned(rule, loan, from, to).revision == rule.revision <==> Reassigned(rule, loan, from, to) == rule
  {
    MentionsAfter(rule.condition, from, to, from);
  }
}
