/**
 * The ledger as the program keeps it: one object whose fields the four
 * operations update in place. Each method is proved to do exactly what the
 * matching function of InsuranceSpec describes, and to keep the ledger
 * invariant.
 */
module InsuranceLedger {
  import opened InsuranceTypes
  import opened InsuranceSpec

  class PoolLedger {
    var poolBalance: int
    var nextPolicyId: nat
    var nextClaimId: nat
    var participants: set<string>
    var policies: map<nat, Policy>
    var claims: map<nat, Claim>

    /** The current contents of the ledger as a value. */
    function Snapshot(): State
      reads this
    {
      State(poolBalance, nextPolicyId, nextClaimId, participants, policies, claims)
    }

    ghost predicate Valid()
      reads this
    {
      Invariant(Snapshot())
    }

    /** A fresh ledger, as the state is after a reset. */
    constructor ()
      ensures Snapshot() == Init()
      ensures Valid()
    {
      poolBalance := 0;
      nextPolicyId := 0;
      nextClaimId := 0;
      participants := {};
      policies := map[];
      claims := map[];
    }

    /** Zero the balance and the counters and empty the three tables. */
    method Reset()
      modifies this
      ensures Snapshot() == Init()
      ensures Valid()
    {
      poolBalance := 0;
      nextPolicyId := 0;
      nextClaimId := 0;
      participants := {};
      policies := map[];
      claims := map[];
    }

    method JoinPool(sender: string) returns (r: Response<bool, bool>)
      modifies this
      ensures Transition(r, Snapshot()) == Join(old(Snapshot()), sender)
      ensures old(Valid()) ==> Valid()
    {
      ghost var s := Snapshot();
      if sender in participants {
        return Err(false);
      }
      participants := participants + {sender};
      r := Ok(true);
      if Invariant(s) {
        JoinPreservesInvariant(s, sender);
      }
    }

    method CreatePolicy(sender: string, coverageAmount: nat, premium: nat, duration: nat)
      returns (r: Response<nat, Error>)
      modifies this
      ensures Transition(r, Snapshot()) == InsuranceSpec.CreatePolicy(old(Snapshot()), sender, coverageAmount, premium, duration)
      ensures old(Valid()) ==> Valid()
    {
      ghost var s := Snapshot();
      if sender !in participants {
        return Err(Unauthorized);
      }
      if premium > FundingCeiling {
        return Err(InsufficientFunds);
      }
      var policyId := nextPolicyId;
      nextPolicyId := nextPolicyId + 1;
      policies := policies[policyId := NewPolicy(sender, coverageAmount, premium, duration)];
      poolBalance := poolBalance + premium;
      r := Ok(policyId);
      if Invariant(s) {
        CreatePolicyPreservesInvariant(s, sender, coverageAmount, premium, duration);
      }
    }

    method SubmitClaim(sender: string, policyId: nat, amount: nat, description: string)
      returns (r: Response<nat, Error>)
      modifies this
      ensures Transition(r, Snapshot()) == InsuranceSpec.SubmitClaim(old(Snapshot()), sender, policyId, amount, description)
      ensures old(Valid()) ==> Valid()
    {
      ghost var s := Snapshot();
      if policyId !in policies || policies[policyId].owner != sender {
        return Err(Unauthorized);
      }
      var policy := policies[policyId];
      if !policy.isActive || amount > policy.coverageAmount {
        return Err(InvalidPolicy);
      }
      var claimId := nextClaimId;
      nextClaimId := nextClaimId + 1;
      claims := claims[claimId := Claim(policyId, amount, description, false)];
      r := Ok(claimId);
      if Invariant(s) {
        SubmitClaimPreservesInvariant(s, sender, policyId, amount, description);
      }
    }

    method ApproveClaim(sender: string, claimId: nat) returns (r: Response<bool, Error>)
      modifies this
      ensures Transition(r, Snapshot()) == InsuranceSpec.ApproveClaim(old(Snapshot()), sender, claimId)
      ensures old(Valid()) ==> Valid()
    {
      ghost var s := Snapshot();
      if sender != ContractOwner {
        return Err(OwnerOnly);
      }
      if claimId !in claims {
        return Err(NotFound);
      }
      var claim := claims[claimId];
      if claim.isApproved {
        return Err(AlreadyExists);
      }
      if claim.amount > poolBalance {
        return Err(InsufficientFunds);
      }
      poolBalance := poolBalance - claim.amount;
      claims := claims[claimId := claim.(isApproved := true)];
      r := Ok(true);
      if Invariant(s) {
        ApproveClaimPreservesInvariant(s, sender, claimId);
      }
    }
  }
}
