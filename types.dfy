/** The records, error kinds and constants of the mutual-insurance pool ledger. */
module InsuranceTypes {

  /** The administrator, the only identity allowed to approve claims. Treated as an opaque string. */
  const ContractOwner: string := "ST1PQHQKV0RJXZFY1DGX8MNSNYVE3VGZJSRTPGZGM"

  /** Stub of the caller's funding check: a premium above this ceiling is refused. */
  const FundingCeiling: nat := 1000000

  /** Stub of the block height recorded as the start of every policy. */
  const StartBlock: nat := 0

  /** A coverage agreement between a participant and the pool. */
  datatype Policy = Policy(
    owner: string,
    coverageAmount: nat,
    premium: nat,
    startBlock: nat,
    endBlock: nat,
    isActive: bool)

  /** A request for a payout against a policy. */
  datatype Claim = Claim(
    policyId: nat,
    amount: nat,
    description: string,
    isApproved: bool)

  /** The error kinds the operations return (each with its string code below). */
  datatype Error =
    | Unauthorized
    | InsufficientFunds
    | InvalidPolicy
    | OwnerOnly
    | NotFound
    | AlreadyExists

  /** The `{type, value}` result of every operation: `ok` with a payload or `err` with a value. */
  datatype Response<T, E> = Ok(value: T) | Err(error: E)

  /** The string the ledger returns for each error kind. */
  function ErrorCode(e: Error): (code: string)
    ensures "err-" <= code && |code| > 4
  {
    match e
    case Unauthorized => "err-unauthorized"
    case InsufficientFunds => "err-insufficient-funds"
    case InvalidPolicy => "err-invalid-policy"
    case OwnerOnly => "err-owner-only"
    case NotFound => "err-not-found"
    case AlreadyExists => "err-already-exists"
  }

  /** Distinct error kinds are reported with distinct codes, so a caller can tell them apart. */
  lemma ErrorCodeInjective(e1: Error, e2: Error)
    ensures ErrorCode(e1) == ErrorCode(e2) ==> e1 == e2
  {
  }
}
