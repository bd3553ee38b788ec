/** `RentExempt<A>`: a transparent wrapper that validates its inner account
    argument and then requires the indexed account to hold at least the rent
    table's minimum balance for its data length. */
module RentExemptAccount {
  import opened Accounts

  datatype RentExempt<A> = RentExempt(inner: A)

  /** The inner argument's validator for argument type `T` (it may update the
      handle, so it answers the new handle) and its account lookup for indexer `I`. */
  datatype Inner<!A, -T, -I> = Inner(
    validate: (A, Pubkey, T) -> Result<A>,
    info: (A, I) -> Result<AccountInfo>)

  /** `Deref`: the wrapped handle. */
  function Deref<A>(self: RentExempt<A>): A {
    self.inner
  }

  /** `from_accounts`: builds the inner argument from the cursor and wraps it. */
  function FromAccounts<A, T>(
    programId: Pubkey, infos: seq<AccountInfo>, arg: T,
    innerFrom: (Pubkey, seq<AccountInfo>, T) -> Result<(A, seq<AccountInfo>)>)
    : (r: Result<(RentExempt<A>, seq<AccountInfo>)>)
    ensures var i := innerFrom(programId, infos, arg);
      && (r.Ok? <==> i.Ok?)
      && (r.Ok? ==> Deref(r.value.0) == i.value.0 && r.value.1 == i.value.1)
      && (r.Err? ==> r.error == i.error)
  {
    match innerFrom(programId, infos, arg)
    case Ok((a, rest)) => Ok((RentExempt(a), rest))
    case Err(e) => Err(e)
  }

  /** `accounts_usage_hint`: the inner argument's hint. */
  function AccountsUsageHint<T>(arg: T, innerHint: T -> UsageHint): UsageHint {
    innerHint(arg)
  }

  /** The balance check on one account info against a rent table. */
  function RentCheck(info: AccountInfo, rent: Rent): (r: Result<()>)
    ensures r.Ok? <==> info.lamports >= rent.minimumBalance(|info.data|)
    ensures r.Err? ==>
      r.error == NotEnoughLamports(info.key, info.lamports, rent.minimumBalance(|info.data|))
  {
    var needed := rent.minimumBalance(|info.data|);
    if info.lamports < needed then
      Err(NotEnoughLamports(info.key, info.lamports, needed))
    else
      Ok(())
  }

  /** `validate((T, I, Rent))`: the inner validation first, then the rent check
      on the account the indexer selects in the validated handle. */
  function ValidateWith<A, T, I>(
    self: RentExempt<A>, programId: Pubkey, arg: T, index: I, rent: Rent, inner: Inner<A, T, I>)
    : (r: Result<RentExempt<A>>)
    ensures var v := inner.validate(self.inner, programId, arg);
      && (v.Err? ==> r == Err(v.error))
      && (v.Ok? && inner.info(v.value, index).Err? ==> r == Err(inner.info(v.value, index).error))
      && (r.Ok? <==>
            v.Ok? && inner.info(v.value, index).Ok?
            && inner.info(v.value, index).value.lamports
               >= rent.minimumBalance(|inner.info(v.value, index).value.data|))
      && (r.Ok? ==> r.value == RentExempt(v.value))
      && (v.Ok? && inner.info(v.value, index).Ok? && r.Err? ==>
            var info := inner.info(v.value, index).value;
            r.error == NotEnoughLamports(info.key, info.lamports, rent.minimumBalance(|info.data|)))
  {
    match inner.validate(self.inner, programId, arg)
    case Err(e) => Err(e)
    case Ok(validated) =>
      match inner.info(validated, index)
      case Err(e) => Err(e)
      case Ok(info) =>
        match RentCheck(info, rent)
        case Err(e) => Err(e)
        case Ok(_) => Ok(RentExempt(validated))
  }

  /** `validate(Rent)`: the full form with `()` as argument and indexer. */
  function ValidateRent<A>(self: RentExempt<A>, programId: Pubkey, rent: Rent, inner: Inner<A, (), ()>)
    : (r: Result<RentExempt<A>>)
    ensures r == ValidateWith(self, programId, (), (), rent, inner)
  {
    ValidateWith(self, programId, (), (), rent, inner)
  }

  /** `validate(())`: reads the host rent first, then as `validate(Rent)`. */
  function ValidateDefault<A>(self: RentExempt<A>, programId: Pubkey, sysvars: Sysvars, inner: Inner<A, (), ()>)
    : (r: Result<RentExempt<A>>)
    ensures sysvars.rent.Err? ==> r == Err(sysvars.rent.error)
    ensures sysvars.rent.Ok? ==> r == ValidateRent(self, programId, sysvars.rent.value, inner)
  {
    match sysvars.rent
    case Err(e) => Err(e)
    case Ok(rent) => ValidateRent(self, programId, rent, inner)
  }

  /** `validate((T,))`: the host rent and the `()` indexer. */
  function ValidateArg<A, T>(self: RentExempt<A>, programId: Pubkey, arg: T, sysvars: Sysvars, inner: Inner<A, T, ()>)
    : (r: Result<RentExempt<A>>)
    ensures sysvars.rent.Err? ==> r == Err(sysvars.rent.error)
    ensures sysvars.rent.Ok? ==> r == ValidateWith(self, programId, arg, (), sysvars.rent.value, inner)
  {
    match sysvars.rent
    case Err(e) => Err(e)
    case Ok(rent) => ValidateWith(self, programId, arg, (), rent, inner)
  }

  /** `validate((T, I))`: the host rent. */
  function ValidateArgIndexed<A, T, I>(
    self: RentExempt<A>, programId: Pubkey, arg: T, index: I, sysvars: Sysvars, inner: Inner<A, T, I>)
    : (r: Result<RentExempt<A>>)
    ensures sysvars.rent.Err? ==> r == Err(sysvars.rent.error)
    ensures sysvars.rent.Ok? ==> r == ValidateWith(self, programId, arg, index, sysvars.rent.value, inner)
  {
    match sysvars.rent
    case Err(e) => Err(e)
    case Ok(rent) => ValidateWith(self, programId, arg, index, rent, inner)
  }

  /** `is_signer`, `is_writable`, `is_owner`, `info`: answered by the inner handle. */
  function IsSigner<A, I>(self: RentExempt<A>, index: I, innerIsSigner: (A, I) -> Result<bool>): Result<bool> {
    innerIsSigner(self.inner, index)
  }

  function IsWritable<A, I>(self: RentExempt<A>, index: I, innerIsWritable: (A, I) -> Result<bool>): Result<bool> {
    innerIsWritable(self.inner, index)
  }

  function IsOwner<A, I>(self: RentExempt<A>, owner: Pubkey, index: I, innerIsOwner: (A, Pubkey, I) -> Result<bool>)
    : Result<bool>
  {
    innerIsOwner(self.inner, owner, index)
  }

  function Info<A, I>(self: RentExempt<A>, index: I, innerInfo: (A, I) -> Result<AccountInfo>): Result<AccountInfo> {
    innerInfo(self.inner, index)
  }

  /** `write_back`: the inner argument's write-back outcome. */
  function WriteBack<A>(self: RentExempt<A>, programId: Pubkey, innerWriteBack: (A, Pubkey) -> Result<()>): Result<()> {
    innerWriteBack(self.inner, programId)
  }

  /** `add_keys`: the keys the inner argument reports, in its order. */
  function AddKeys<A>(self: RentExempt<A>, innerKeys: A -> seq<Pubkey>): seq<Pubkey> {
    innerKeys(self.inner)
  }

  /** The signer, writable, owner and info queries of the wrapper are those of
      the handle it derefs to. */
  lemma QueriesForwarded<A, I>(
    self: RentExempt<A>, index: I, owner: Pubkey,
    isSigner: (A, I) -> Result<bool>, isWritable: (A, I) -> Result<bool>,
    isOwner: (A, Pubkey, I) -> Result<bool>, info: (A, I) -> Result<AccountInfo>)
    ensures IsSigner(self, index, isSigner) == isSigner(Deref(self), index)
    ensures IsWritable(self, index, isWritable) == isWritable(Deref(self), index)
    ensures IsOwner(self, owner, index, isOwner) == isOwner(Deref(self), owner, index)
    ensures Info(self, index, info) == info(Deref(self), index)
  {
  }

  /** The write-back, the key listing and the usage hint of the wrapper are
      those of the inner argument. */
  lemma ArgumentForwarded<A, T>(
    self: RentExempt<A>, programId: Pubkey, arg: T,
    writeBack: (A, Pubkey) -> Result<()>, keys: A -> seq<Pubkey>, hint: T -> UsageHint)
    ensures WriteBack(self, programId, writeBack) == writeBack(Deref(self), programId)
    ensures AddKeys(self, keys) == keys(Deref(self))
    ensures AccountsUsageHint(arg, hint) == hint(arg)
  {
  }

  /** If the inner validator fails, that error is the answer and the account is
      never looked up or charged against the rent table. */
  lemma InnerFailureShortCircuits<A, T, I>(
    self: RentExempt<A>, programId: Pubkey, arg: T, index: I, rent: Rent, other: Rent, inner: Inner<A, T, I>)
    requires inner.validate(self.inner, programId, arg).Err?
    ensures ValidateWith(self, programId, arg, index, rent, inner)
         == ValidateWith(self, programId, arg, index, other, inner)
         == Err(inner.validate(self.inner, programId, arg).error)
  {
  }

  /** The rent check reads only the balance, the data length and (for the error)
      the key; the rest of the account does not matter. */
  lemma RentCheckReadsBalanceAndLength(a: AccountInfo, b: AccountInfo, rent: Rent)
    requires a.key == b.key && a.lamports == b.lamports && |a.data| == |b.data|
    ensures RentCheck(a, rent) == RentCheck(b, rent)
  {
  }

  /** Boundary: a balance equal to the minimum passes, one lamport less fails. */
  lemma RentBoundary(info: AccountInfo, rent: Rent)
    requires rent.minimumBalance(|info.data|) >= 1
    ensures RentCheck(info.(lamports := rent.minimumBalance(|info.data|)), rent) == Ok(())
    ensures RentCheck(info.(lamports := rent.minimumBalance(|info.data|) - 1), rent)
         == Err(NotEnoughLamports(info.key, rent.minimumBalance(|info.data|) - 1, rent.minimumBalance(|info.data|)))
  {
  }

  /** Passing the host's rent explicitly or letting the wrapper read it gives the
      same verdict. */
  lemma HostRentAgreesWithPassedRent<A>(self: RentExempt<A>, programId: Pubkey, sysvars: Sysvars, inner: Inner<A, (), ()>)
    requires sysvars.rent.Ok?
    ensures ValidateDefault(self, programId, sysvars, inner) == ValidateRent(self, programId, sysvars.rent.value, inner)
    ensures ValidateDefault(self, programId, sysvars, inner) == ValidateArg(self, programId, (), sysvars, inner)
    ensures ValidateDefault(self, programId, sysvars, inner) == ValidateArgIndexed(self, programId, (), (), sysvars, inner)
  {
  }
}
