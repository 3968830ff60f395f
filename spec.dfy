/**
 * The ledger as a pure state machine: each operation maps a state and its
 * arguments to a reply and a new state. The class in InsuranceLedger is
 * proved to follow these functions; the properties of the ledger are proved
 * here, about them.
 */
module InsuranceSpec {
  import opened InsuranceTypes

  /** The whole ledger: pool balance, the two id counters and the three tables. */
  datatype State = State(
    poolBalance: int,
    nextPolicyId: nat,
    nextClaimId: nat,
    participants: set<string>,
    policies: map<nat, Policy>,
    claims: map<nat, Claim>)

  /** What one call returns, together with the state it leaves behind. */
  datatype Transition<R> = Transition(reply: R, after: State)

  /** The state right after a reset: zero balance and counters, empty tables. */
  function Init(): (s: State)
    ensures Invariant(s)
  {
    State(0, 0, 0, {}, map[], map[])
  }

  // ---------------------------------------------------------------------------
  // The four operations
  // ---------------------------------------------------------------------------

  /** Join the pool; a second join by the same identity is refused with `false`. */
  function Join(s: State, sender: string): (t: Transition<Response<bool, bool>>)
    ensures t.reply == Ok(true) <==> sender !in s.participants
    ensures sender in s.participants ==> t.reply == Err(false) && t.after == s
    ensures t.after.participants == s.participants + {sender}
    ensures t.after == s.(participants := t.after.participants)
  {
    if sender in s.participants then
      Transition(Err(false), s)
    else
      Transition(Ok(true), s.(participants := s.participants + {sender}))
  }

  /** The record a successful CreatePolicy stores. */
  function NewPolicy(sender: string, coverageAmount: nat, premium: nat, duration: nat): Policy
  {
    Policy(sender, coverageAmount, premium, StartBlock, duration, true)
  }

  /**
   * Create a policy for a participant: refused for a non-participant, then for a
   * premium above the funding ceiling; otherwise the next policy id is used and
   * the premium is paid into the pool.
   */
  function CreatePolicy(s: State, sender: string, coverageAmount: nat, premium: nat, duration: nat)
    : (t: Transition<Response<nat, Error>>)
    ensures sender !in s.participants ==> t.reply == Err(Unauthorized)
    ensures sender in s.participants && premium > FundingCeiling ==> t.reply == Err(InsufficientFunds)
    ensures t.reply.Ok? <==> sender in s.participants && premium <= FundingCeiling
    ensures t.reply.Err? ==> t.after == s
    ensures t.reply.Ok? ==>
      var id := t.reply.value;
      && id == s.nextPolicyId
      && t.after.nextPolicyId == id + 1
      && t.after.policies == s.policies[id := NewPolicy(sender, coverageAmount, premium, duration)]
      && t.after.policies[id].owner == sender
      && t.after.policies[id].isActive
      && t.after.poolBalance == s.poolBalance + premium
      && t.after == s.(poolBalance := t.after.poolBalance, nextPolicyId := id + 1, policies := t.after.policies)
  {
    if sender !in s.participants then
      Transition(Err(Unauthorized), s)
    else if premium > FundingCeiling then
      Transition(Err(InsufficientFunds), s)
    else
      var policyId := s.nextPolicyId;
      Transition(Ok(policyId), s.(
        nextPolicyId := policyId + 1,
        policies := s.policies[policyId := NewPolicy(sender, coverageAmount, premium, duration)],
        poolBalance := s.poolBalance + premium))
  }

  /**
   * Submit a claim against a policy: refused unless the policy exists and is the
   * caller's, then unless it is active and covers the amount; otherwise the next
   * claim id is used for a pending claim. The pool balance is never touched.
   */
  function SubmitClaim(s: State, sender: string, policyId: nat, amount: nat, description: string)
    : (t: Transition<Response<nat, Error>>)
    ensures policyId !in s.policies || s.policies[policyId].owner != sender ==>
      t.reply == Err(Unauthorized)
    ensures (&& policyId in s.policies
             && s.policies[policyId].owner == sender
             && (!s.policies[policyId].isActive || amount > s.policies[policyId].coverageAmount))
            ==> t.reply == Err(InvalidPolicy)
    ensures t.reply.Ok? <==>
      && policyId in s.policies
      && s.policies[policyId].owner == sender
      && s.policies[policyId].isActive
      && amount <= s.policies[policyId].coverageAmount
    ensures t.after.poolBalance == s.poolBalance
    ensures t.reply.Err? ==> t.after == s
    ensures t.reply.Ok? ==>
      var id := t.reply.value;
      && id == s.nextClaimId
      && t.after.nextClaimId == id + 1
      && t.after.claims == s.claims[id := Claim(policyId, amount, description, false)]
      && t.after == s.(nextClaimId := id + 1, claims := t.after.claims)
  {
    if policyId !in s.policies || s.policies[policyId].owner != sender then
      Transition(Err(Unauthorized), s)
    else if !s.policies[policyId].isActive || amount > s.policies[policyId].coverageAmount then
      Transition(Err(InvalidPolicy), s)
    else
      var claimId := s.nextClaimId;
      Transition(Ok(claimId), s.(
        nextClaimId := claimId + 1,
        claims := s.claims[claimId := Claim(policyId, amount, description, false)]))
  }

  /**
   * Approve a claim: only the administrator may; the claim must exist, must still
   * be pending and must fit in the pool. The payout leaves the pool and the claim
   * becomes approved.
   */
  function ApproveClaim(s: State, sender: string, claimId: nat): (t: Transition<Response<bool, Error>>)
    ensures sender != ContractOwner ==> t.reply == Err(OwnerOnly)
    ensures sender == ContractOwner && claimId !in s.claims ==> t.reply == Err(NotFound)
    ensures sender == ContractOwner && claimId in s.claims && s.claims[claimId].isApproved ==>
      t.reply == Err(AlreadyExists)
    ensures (&& sender == ContractOwner
             && claimId in s.claims
             && !s.claims[claimId].isApproved
             && s.claims[claimId].amount > s.poolBalance)
            ==> t.reply == Err(InsufficientFunds)
    ensures t.reply.Ok? <==>
      && sender == ContractOwner
      && claimId in s.claims
      && !s.claims[claimId].isApproved
      && s.claims[claimId].amount <= s.poolBalance
    ensures t.reply.Ok? ==> t.reply == Ok(true)
    ensures t.reply.Err? ==> t.after == s
    ensures t.reply.Ok? ==>
      && t.after.poolBalance == s.poolBalance - s.claims[claimId].amount
      && t.after.claims == s.claims[claimId := s.claims[claimId].(isApproved := true)]
      && t.after == s.(poolBalance := t.after.poolBalance, claims := t.after.claims)
  {
    if sender != ContractOwner then
      Transition(Err(OwnerOnly), s)
    else if claimId !in s.claims then
      Transition(Err(NotFound), s)
    else if s.claims[claimId].isApproved then
      Transition(Err(AlreadyExists), s)
    else if s.claims[claimId].amount > s.poolBalance then
      Transition(Err(InsufficientFunds), s)
    else
      var claim := s.claims[claimId];
      Transition(Ok(true), s.(
        poolBalance := s.poolBalance - claim.amount,
        claims := s.claims[claimId := claim.(isApproved := true)]))
  }

  // ---------------------------------------------------------------------------
  // The ledger invariant
  // ---------------------------------------------------------------------------

  /** Policy ids are exactly 0 .. nextPolicyId - 1. */
  ghost predicate PolicyIdsDense(s: State)
  {
    forall i: nat :: i in s.policies <==> i < s.nextPolicyId
  }

  /** Claim ids are exactly 0 .. nextClaimId - 1. */
  ghost predicate ClaimIdsDense(s: State)
  {
    forall i: nat :: i in s.claims <==> i < s.nextClaimId
  }

  /** Every policy belongs to a participant, is active, started at the stub block and was affordable. */
  ghost predicate PoliciesWellFormed(s: State)
  {
    forall i :: i in s.policies ==>
      && s.policies[i].owner in s.participants
      && s.policies[i].isActive
      && s.policies[i].startBlock == StartBlock
      && s.policies[i].premium <= FundingCeiling
  }

  /** Every claim refers to an existing policy and fits within that policy's coverage. */
  ghost predicate ClaimsWellFormed(s: State)
  {
    forall c :: c in s.claims ==>
      && s.claims[c].policyId in s.policies
      && s.claims[c].amount <= s.policies[s.claims[c].policyId].coverageAmount
  }

  /** Sum of the premiums of policies 0 .. n - 1. */
  function PremiumTotal(policies: map<nat, Policy>, n: nat): nat
  {
    if n == 0 then 0 else
      PremiumTotal(policies, n - 1) + (if n - 1 in policies then policies[n - 1].premium else 0)
  }

  /** Sum of the amounts of the approved claims among claims 0 .. n - 1. */
  function ApprovedTotal(claims: map<nat, Claim>, n: nat): nat
  {
    if n == 0 then 0 else
      ApprovedTotal(claims, n - 1)
        + (if n - 1 in claims && claims[n - 1].isApproved then claims[n - 1].amount else 0)
  }

  /** The pool holds exactly the premiums collected minus the approved payouts. */
  ghost predicate Balanced(s: State)
  {
    s.poolBalance + ApprovedTotal(s.claims, s.nextClaimId) == PremiumTotal(s.policies, s.nextPolicyId)
  }

  /** Everything every reachable state satisfies. */
  ghost predicate Invariant(s: State)
  {
    && s.poolBalance >= 0
    && PolicyIdsDense(s)
    && ClaimIdsDense(s)
    && PoliciesWellFormed(s)
    && ClaimsWellFormed(s)
    && Balanced(s)
  }

  // ---------------------------------------------------------------------------
  // Accounting lemmas
  // ---------------------------------------------------------------------------

  /** Writing a policy at or above n does not change the premiums of 0 .. n - 1. */
  lemma {:induction false} PremiumTotalWriteAbove(policies: map<nat, Policy>, n: nat, k: nat, p: Policy)
    requires n <= k
    ensures PremiumTotal(policies[k := p], n) == PremiumTotal(policies, n)
  {
    if n > 0 {
      PremiumTotalWriteAbove(policies, n - 1, k, p);
    }
  }

  /** Writing a claim at or above n does not change the approved payouts of 0 .. n - 1. */
  lemma {:induction false} ApprovedTotalWriteAbove(claims: map<nat, Claim>, n: nat, k: nat, c: Claim)
    requires n <= k
    ensures ApprovedTotal(claims[k := c], n) == ApprovedTotal(claims, n)
  {
    if n > 0 {
      ApprovedTotalWriteAbove(claims, n - 1, k, c);
    }
  }

  /** Approving a pending claim below n raises the approved payouts by exactly its amount. */
  lemma {:induction false} ApprovedTotalApprove(claims: map<nat, Claim>, n: nat, k: nat)
    requires k < n && k in claims && !claims[k].isApproved
    ensures ApprovedTotal(claims[k := claims[k].(isApproved := true)], n)
      == ApprovedTotal(claims, n) + claims[k].amount
  {
    var approved := claims[k].(isApproved := true);
    if k == n - 1 {
      ApprovedTotalWriteAbove(claims, n - 1, k, approved);
    } else {
      ApprovedTotalApprove(claims, n - 1, k);
    }
  }

  // ---------------------------------------------------------------------------
  // Each operation preserves the invariant
  // ---------------------------------------------------------------------------

  lemma JoinPreservesInvariant(s: State, sender: string)
    requires Invariant(s)
    ensures Invariant(Join(s, sender).after)
  {
  }

  lemma CreatePolicyPreservesInvariant(s: State, sender: string, coverageAmount: nat, premium: nat, duration: nat)
    requires Invariant(s)
    ensures Invariant(CreatePolicy(s, sender, coverageAmount, premium, duration).after)
  {
    var t := CreatePolicy(s, sender, coverageAmount, premium, duration);
    if t.reply.Ok? {
      var id := s.nextPolicyId;
      var p := NewPolicy(sender, coverageAmount, premium, duration);
      PremiumTotalWriteAbove(s.policies, id, id, p);
      assert PremiumTotal(t.after.policies, id + 1) == PremiumTotal(s.policies, id) + premium;
      assert ClaimsWellFormed(t.after) by {
        forall c | c in t.after.claims
          ensures t.after.claims[c].policyId in t.after.policies
          ensures t.after.claims[c].amount <= t.after.policies[t.after.claims[c].policyId].coverageAmount
        {
          var pid := s.claims[c].policyId;
          assert pid in s.policies && pid != id;
        }
      }
    }
  }

  lemma SubmitClaimPreservesInvariant(s: State, sender: string, policyId: nat, amount: nat, description: string)
    requires Invariant(s)
    ensures Invariant(SubmitClaim(s, sender, policyId, amount, description).after)
  {
    var t := SubmitClaim(s, sender, policyId, amount, description);
    if t.reply.Ok? {
      var id := s.nextClaimId;
      ApprovedTotalWriteAbove(s.claims, id, id, Claim(policyId, amount, description, false));
      assert ApprovedTotal(t.after.claims, id + 1) == ApprovedTotal(s.claims, id);
    }
  }

  lemma ApproveClaimPreservesInvariant(s: State, sender: string, claimId: nat)
    requires Invariant(s)
    ensures Invariant(ApproveClaim(s, sender, claimId).after)
  {
    var t := ApproveClaim(s, sender, claimId);
    if t.reply.Ok? {
      ApprovedTotalApprove(s.claims, s.nextClaimId, claimId);
    }
  }

  // ---------------------------------------------------------------------------
  // Sequences of calls
  // ---------------------------------------------------------------------------

  /** One call to the ledger, with its arguments. */
  datatype Op =
    | JoinOp(sender: string)
    | CreatePolicyOp(sender: string, coverageAmount: nat, premium: nat, duration: nat)
    | SubmitClaimOp(sender: string, policyId: nat, amount: nat, description: string)
    | ApproveClaimOp(sender: string, claimId: nat)

  /** Perform one call; the reply says whether it returned `ok`. */
  function Step(s: State, op: Op): (t: Transition<bool>)
    ensures !t.reply ==> t.after == s
  {
    match op
    case JoinOp(sender) =>
      var u := Join(s, sender); Transition(u.reply.Ok?, u.after)
    case CreatePolicyOp(sender, coverageAmount, premium, duration) =>
      var u := CreatePolicy(s, sender, coverageAmount, premium, duration); Transition(u.reply.Ok?, u.after)
    case SubmitClaimOp(sender, policyId, amount, description) =>
      var u := SubmitClaim(s, sender, policyId, amount, description); Transition(u.reply.Ok?, u.after)
    case ApproveClaimOp(sender, claimId) =>
      var u := ApproveClaim(s, sender, claimId); Transition(u.reply.Ok?, u.after)
  }

  lemma StepPreservesInvariant(s: State, op: Op)
    requires Invariant(s)
    ensures Invariant(Step(s, op).after)
  {
    match op
    case JoinOp(sender) => JoinPreservesInvariant(s, sender);
    case CreatePolicyOp(sender, coverageAmount, premium, duration) =>
      CreatePolicyPreservesInvariant(s, sender, coverageAmount, premium, duration);
    case SubmitClaimOp(sender, policyId, amount, description) =>
      SubmitClaimPreservesInvariant(s, sender, policyId, amount, description);
    case ApproveClaimOp(sender, claimId) => ApproveClaimPreservesInvariant(s, sender, claimId);
  }

  /** The state after performing the calls in order. */
  function Run(s: State, ops: seq<Op>): State
    decreases |ops|
  {
    if ops == [] then s else Run(Step(s, ops[0]).after, ops[1..])
  }

  lemma {:induction false} RunPreservesInvariant(s: State, ops: seq<Op>)
    requires Invariant(s)
    ensures Invariant(Run(s, ops))
    decreases |ops|
  {
    if ops != [] {
      StepPreservesInvariant(s, ops[0]);
      RunPreservesInvariant(Step(s, ops[0]).after, ops[1..]);
    }
  }

  /** Every state reachable from a reset satisfies the invariant; in particular the balance is never negative. */
  lemma ReachableInvariant(ops: seq<Op>)
    ensures Invariant(Run(Init(), ops))
    ensures Run(Init(), ops).poolBalance >= 0
  {
    RunPreservesInvariant(Init(), ops);
  }

  /**
   * `t` is a later state of `s`: no participant leaves, counters never go back,
   * policies never change, claims never disappear and change only from pending
   * to approved.
   */
  ghost predicate Extends(s: State, t: State)
  {
    && s.participants <= t.participants
    && s.nextPolicyId <= t.nextPolicyId
    && s.nextClaimId <= t.nextClaimId
    && (forall i :: i in s.policies ==> i in t.policies && t.policies[i] == s.policies[i])
    && (forall c :: c in s.claims ==>
         && c in t.claims
         && t.claims[c] == s.claims[c].(isApproved := t.claims[c].isApproved)
         && (s.claims[c].isApproved ==> t.claims[c].isApproved))
  }

  lemma StepExtends(s: State, op: Op)
    requires Invariant(s)
    ensures Extends(s, Step(s, op).after)
  {
  }

  lemma ExtendsTransitive(s: State, t: State, u: State)
    requires Extends(s, t) && Extends(t, u)
    ensures Extends(s, u)
  {
  }

  /** Over any sequence of calls, membership, counters, policies and approvals only grow. */
  lemma {:induction false} RunExtends(s: State, ops: seq<Op>)
    requires Invariant(s)
    ensures Extends(s, Run(s, ops))
    decreases |ops|
  {
    if ops != [] {
      StepPreservesInvariant(s, ops[0]);
      var t := Step(s, ops[0]).after;
      StepExtends(s, ops[0]);
      RunExtends(t, ops[1..]);
      ExtendsTransitive(s, t, Run(t, ops[1..]));
    }
  }

  // ---------------------------------------------------------------------------
  // Repeated calls
  // ---------------------------------------------------------------------------

  /** The first join of an identity succeeds; joining again returns `err false` and changes nothing. */
  lemma JoinTwice(s: State, sender: string)
    requires sender !in s.participants
    ensures Join(s, sender).reply == Ok(true)
    ensures var t := Join(s, sender).after;
      Join(t, sender).reply == Err(false) && Join(t, sender).after == t
  {
  }

  /**
   * Approving the same claim twice succeeds at most once: the repeat of a success
   * returns `err-already-exists` and moves no money; the success moves exactly
   * the claim amount.
   */
  lemma ApproveTwice(s: State, sender: string, claimId: nat)
    ensures var t1 := ApproveClaim(s, sender, claimId);
      var t2 := ApproveClaim(t1.after, sender, claimId);
      && !(t1.reply.Ok? && t2.reply.Ok?)
      && (t1.reply.Ok? ==> t2.reply == Err(AlreadyExists) && t2.after == t1.after)
      && (t1.reply.Ok? ==> t1.after.poolBalance == s.poolBalance - s.claims[claimId].amount)
  {
  }

  /** Successful policy creations hand out 0, 1, 2, ... whoever calls. */
  lemma {:induction false} PolicyIdsSequential(s: State, calls: seq<(string, nat, nat, nat)>)
    requires forall k :: 0 <= k < |calls| ==> calls[k].0 in s.participants && calls[k].2 <= FundingCeiling
    ensures var r := CreatePolicies(s, calls);
      && |r.reply| == |calls|
      && (forall k :: 0 <= k < |calls| ==> r.reply[k] == Ok(s.nextPolicyId + k))
      && r.after.nextPolicyId == s.nextPolicyId + |calls|
    decreases |calls|
  {
    if calls != [] {
      var c := calls[0];
      var u := CreatePolicy(s, c.0, c.1, c.2, c.3);
      PolicyIdsSequential(u.after, calls[1..]);
    }
  }

  /** Run the given CreatePolicy calls (sender, coverage, premium, duration) in order, collecting their replies. */
  function CreatePolicies(s: State, calls: seq<(string, nat, nat, nat)>): (r: Transition<seq<Response<nat, Error>>>)
    ensures |r.reply| == |calls|
    ensures s.participants == r.after.participants
    decreases |calls|
  {
    if calls == [] then Transition([], s)
    else
      var c := calls[0];
      var u := CreatePolicy(s, c.0, c.1, c.2, c.3);
      var rest := CreatePolicies(u.after, calls[1..]);
      Transition([u.reply] + rest.reply, rest.after)
  }
}
