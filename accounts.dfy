/** Shared vocabulary of the account wrappers: keys, the error kinds they raise,
    the host account record, the rent table and the account-list cursor. */
module Accounts {

  /** A 32-byte account address or program id. */
  type Pubkey = s: seq<bv8> | |s| == 32 witness seq(32, _ => 0 as bv8)

  /** The system program's id: 32 zero bytes. */
  const SystemProgramKey: Pubkey := seq(32, _ => 0 as bv8)

  datatype Option<+T> = None | Some(value: T)

  /** The error kinds the wrappers raise or pass through. */
  datatype Error =
    | NotEnoughAccountKeys
    | NotEnoughLamports(account: Pubkey, lamports: nat, neededLamports: nat)
    | MismatchedDiscriminant(account: Pubkey, received: nat, expected: nat)
    | NonZeroedData(account: Pubkey)
    | AccountOwnerNotEqual(account: Pubkey, owner: Pubkey, expectedOwner: seq<Pubkey>)
    | SysvarUnavailable
    | DecodeFailed
    | WriteZero
      /** An error raised by a collaborator whose code is not part of this model. */
    | Custom(code: nat)

  datatype Result<+T> = Ok(value: T) | Err(error: Error)

  /** A snapshot of one host account: address, owner, flags, balance (a u64 in
      the host) and data buffer. */
  datatype AccountInfo = AccountInfo(
    key: Pubkey,
    owner: Pubkey,
    isSigner: bool,
    isWritable: bool,
    lamports: nat,
    data: seq<bv8>)

  /** The host's rent table. Only its minimum-balance function is used, and it is
      left uninterpreted: nothing (not even monotonicity) is assumed about it. */
  datatype Rent = Rent(minimumBalance: nat -> nat)

  /** What `Rent::get` answers during one invocation: the rent table or an error. */
  datatype Sysvars = Sysvars(rent: Result<Rent>)

  /** A usage hint: least and (optional) greatest number of accounts consumed. */
  type UsageHint = (nat, Option<nat>)

  /** Pulls one account off the cursor (the remaining accounts are returned). */
  function NextAccount(infos: seq<AccountInfo>): (r: Result<(AccountInfo, seq<AccountInfo>)>)
    ensures r.Ok? <==> |infos| > 0
    ensures r.Ok? ==> [r.value.0] + r.value.1 == infos
    ensures r.Err? ==> r.error == NotEnoughAccountKeys
  {
    if |infos| == 0 then Err(NotEnoughAccountKeys) else Ok((infos[0], infos[1..]))
  }

  /** The usage hint of a single account info: exactly one account. */
  const SingleAccountHint: UsageHint := (1, Some(1))

  /** Number of accounts a cursor step consumed. */
  function Consumed(before: seq<AccountInfo>, after: seq<AccountInfo>): int {
    |before| - |after|
  }

  /** A consumption count agrees with a usage hint. */
  predicate WithinHint(n: int, hint: UsageHint) {
    hint.0 <= n && (hint.1.Some? ==> n <= hint.1.value)
  }
}
