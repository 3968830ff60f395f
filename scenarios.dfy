/**
 * The ledger's test cases, replayed on a fresh PoolLedger. Each method
 * returns what the test observes and its postcondition states the expected
 * values, which follow from the method contracts of PoolLedger alone.
 */
module InsuranceScenarios {
  import opened InsuranceTypes
  import opened InsuranceLedger

  method JoinAdmitsNewMember() returns (r: Response<bool, bool>, member: bool)
    ensures r == Ok(true) && member
  {
    var ledger := new PoolLedger();
    r := ledger.JoinPool("user1");
    member := "user1" in ledger.participants;
  }

  method JoinRefusesSecondJoin() returns (r: Response<bool, bool>)
    ensures r == Err(false)
  {
    var ledger := new PoolLedger();
    var _ := ledger.JoinPool("user1");
    r := ledger.JoinPool("user1");
  }

  method ParticipantCreatesPolicy() returns (r: Response<nat, Error>, stored: bool, balance: int)
    ensures r == Ok(0) && stored && balance == 50000
  {
    var ledger := new PoolLedger();
    var _ := ledger.JoinPool("user1");
    r := ledger.CreatePolicy("user1", 1000000, 50000, 144);
    stored := 0 in ledger.policies;
    balance := ledger.poolBalance;
  }

  method NonParticipantCannotCreatePolicy() returns (r: Response<nat, Error>)
    ensures r == Err(Unauthorized)
  {
    var ledger := new PoolLedger();
    r := ledger.CreatePolicy("user1", 1000000, 50000, 144);
  }

  method OwnerSubmitsClaim() returns (r: Response<nat, Error>, stored: bool)
    ensures r == Ok(0) && stored
  {
    var ledger := new PoolLedger();
    var _ := ledger.JoinPool("user1");
    var _ := ledger.CreatePolicy("user1", 1000000, 50000, 144);
    r := ledger.SubmitClaim("user1", 0, 500000, "Car accident");
    stored := 0 in ledger.claims;
  }

  method NonOwnerCannotSubmitClaim() returns (r: Response<nat, Error>)
    ensures r == Err(Unauthorized)
  {
    var ledger := new PoolLedger();
    var _ := ledger.JoinPool("user1");
    var _ := ledger.JoinPool("user2");
    var _ := ledger.CreatePolicy("user1", 1000000, 50000, 144);
    r := ledger.SubmitClaim("user2", 0, 500000, "Car accident");
  }

  /** The administrator's approval pays out; approving the same claim again is refused. */
  method AdministratorApprovesClaim()
    returns (r: Response<bool, Error>, approved: bool, balance: int, again: Response<bool, Error>, balanceAfterAgain: int)
    ensures r == Ok(true) && approved && balance == 20000
    ensures again == Err(AlreadyExists) && balanceAfterAgain == 20000
  {
    var ledger := new PoolLedger();
    var _ := ledger.JoinPool("user1");
    var _ := ledger.CreatePolicy("user1", 1000000, 50000, 144);
    var _ := ledger.SubmitClaim("user1", 0, 30000, "Minor damage");
    r := ledger.ApproveClaim(ContractOwner, 0);
    approved := ledger.claims[0].isApproved;
    balance := ledger.poolBalance;
    again := ledger.ApproveClaim(ContractOwner, 0);
    balanceAfterAgain := ledger.poolBalance;
  }

  method NonAdministratorCannotApprove() returns (r: Response<bool, Error>)
    ensures r == Err(OwnerOnly)
  {
    var ledger := new PoolLedger();
    var _ := ledger.JoinPool("user1");
    var _ := ledger.CreatePolicy("user1", 1000000, 50000, 144);
    var _ := ledger.SubmitClaim("user1", 0, 30000, "Minor damage");
    r := ledger.ApproveClaim("user1", 0);
  }

  method ApprovalBeyondPoolIsRefused() returns (r: Response<bool, Error>, balance: int)
    ensures r == Err(InsufficientFunds) && balance == 50000
  {
    var ledger := new PoolLedger();
    var _ := ledger.JoinPool("user1");
    var _ := ledger.CreatePolicy("user1", 1000000, 50000, 144);
    var _ := ledger.SubmitClaim("user1", 0, 60000, "Major damage");
    r := ledger.ApproveClaim(ContractOwner, 0);
    balance := ledger.poolBalance;
  }
}
