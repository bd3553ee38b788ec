/** `InitOrZeroedAccount<AL, A>`: one account that is either still to be created
    (`Init`, wrapping an InitAccount) or already owned by the program and zeroed
    (`Zeroed`, wrapping a ZeroedAccount). The variant is chosen from the account's
    owner when the account is pulled, and every operation dispatches on it. */
module InitOrZeroedAccount {
  import opened Accounts

  /** The handle both inner wrappers deref to: the account info and the typed value. */
  datatype DiscriminantAccount<A> = DiscriminantAccount(info: AccountInfo, data: A)

  datatype InitOrZeroed<I, Z> = Init(init: I) | Zeroed(zeroed: Z)

  /** The arguments a ZeroedAccount is validated with: `()` or `CheckAll`. */
  datatype ZeroedArg = UnitArg | CheckAll

  /** The operations of one inner wrapper `S` (InitAccount or ZeroedAccount) for
      initial value type `A` and validation argument `V`. */
  datatype Variant<!S, !A, -V> = Variant(
    fromAccounts: (Pubkey, seq<AccountInfo>, A) -> Result<(S, seq<AccountInfo>)>,
    validate: (S, Pubkey, V) -> Result<S>,
    deref: S -> DiscriminantAccount<A>,
    writeBack: (S, Pubkey) -> Result<()>,
    keys: S -> seq<Pubkey>)

  /** `from_accounts`: pulls exactly one account, then lets ZeroedAccount (owner is
      the program) or InitAccount (any other owner) build from that account alone. */
  function FromAccounts<I, Z, A, IA>(
    programId: Pubkey, infos: seq<AccountInfo>, arg: A,
    init: Variant<I, A, IA>, zeroed: Variant<Z, A, ZeroedArg>)
    : (r: Result<(InitOrZeroed<I, Z>, seq<AccountInfo>)>)
    ensures |infos| == 0 ==> r == Err(NotEnoughAccountKeys)
    ensures r.Ok? ==> |infos| > 0 && r.value.1 == infos[1..]
    ensures r.Ok? ==> WithinHint(Consumed(infos, r.value.1), AccountsUsageHint(arg))
    ensures r.Ok? ==> (r.value.0.Zeroed? <==> infos[0].owner == programId)
    ensures |infos| > 0 && infos[0].owner == programId ==>
      var z := zeroed.fromAccounts(programId, [infos[0]], arg);
      && (r.Ok? <==> z.Ok?)
      && (r.Ok? ==> r.value.0 == Zeroed(z.value.0))
      && (r.Err? ==> r.error == z.error)
    ensures |infos| > 0 && infos[0].owner != programId ==>
      var i := init.fromAccounts(programId, [infos[0]], arg);
      && (r.Ok? <==> i.Ok?)
      && (r.Ok? ==> r.value.0 == Init(i.value.0))
      && (r.Err? ==> r.error == i.error)
  {
    match NextAccount(infos)
    case Err(e) => Err(e)
    case Ok((info, rest)) =>
      if info.owner == programId then
        match zeroed.fromAccounts(programId, [info], arg)
        case Err(e) => Err(e)
        case Ok((z, _)) => Ok((Zeroed(z), rest))
      else
        match init.fromAccounts(programId, [info], arg)
        case Err(e) => Err(e)
        case Ok((i, _)) => Ok((Init(i), rest))
  }

  /** `accounts_usage_hint`: that of one account info, whatever the initial value. */
  function AccountsUsageHint<A>(arg: A): (r: UsageHint)
    ensures forall n :: WithinHint(n, r) <==> n == 1
  {
    SingleAccountHint
  }

  /** `validate(InitArgs)`: `Init` gets the init arguments, `Zeroed` is validated with `()`. */
  function Validate<I, Z, A, IA>(
    self: InitOrZeroed<I, Z>, programId: Pubkey, arg: IA,
    init: Variant<I, A, IA>, zeroed: Variant<Z, A, ZeroedArg>)
    : (r: Result<InitOrZeroed<I, Z>>)
    ensures r.Ok? ==> (r.value.Init? <==> self.Init?)
    ensures self.Init? ==>
      var v := init.validate(self.init, programId, arg);
      && (r.Ok? <==> v.Ok?) && (r.Ok? ==> r.value.init == v.value) && (r.Err? ==> r.error == v.error)
    ensures self.Zeroed? ==>
      var v := zeroed.validate(self.zeroed, programId, UnitArg);
      && (r.Ok? <==> v.Ok?) && (r.Ok? ==> r.value.zeroed == v.value) && (r.Err? ==> r.error == v.error)
  {
    match self
    case Init(i) =>
      (match init.validate(i, programId, arg)
       case Ok(i') => Ok(Init(i'))
       case Err(e) => Err(e))
    case Zeroed(z) =>
      (match zeroed.validate(z, programId, UnitArg)
       case Ok(z') => Ok(Zeroed(z'))
       case Err(e) => Err(e))
  }

  /** `validate((InitArgs, CheckAll))`: `Init` gets component 0, `Zeroed` component 1. */
  function ValidateCheckAll<I, Z, A, IA>(
    self: InitOrZeroed<I, Z>, programId: Pubkey, arg: IA,
    init: Variant<I, A, IA>, zeroed: Variant<Z, A, ZeroedArg>)
    : (r: Result<InitOrZeroed<I, Z>>)
    ensures r.Ok? ==> (r.value.Init? <==> self.Init?)
    ensures self.Init? ==>
      var v := init.validate(self.init, programId, arg);
      && (r.Ok? <==> v.Ok?) && (r.Ok? ==> r.value.init == v.value) && (r.Err? ==> r.error == v.error)
    ensures self.Zeroed? ==>
      var v := zeroed.validate(self.zeroed, programId, CheckAll);
      && (r.Ok? <==> v.Ok?) && (r.Ok? ==> r.value.zeroed == v.value) && (r.Err? ==> r.error == v.error)
  {
    match self
    case Init(i) =>
      (match init.validate(i, programId, arg)
       case Ok(i') => Ok(Init(i'))
       case Err(e) => Err(e))
    case Zeroed(z) =>
      (match zeroed.validate(z, programId, CheckAll)
       case Ok(z') => Ok(Zeroed(z'))
       case Err(e) => Err(e))
  }

  /** `Deref`: the DiscriminantAccount of whichever variant is held. */
  function Deref<I, Z, A, IA>(self: InitOrZeroed<I, Z>, init: Variant<I, A, IA>, zeroed: Variant<Z, A, ZeroedArg>)
    : DiscriminantAccount<A>
  {
    match self
    case Init(i) => init.deref(i)
    case Zeroed(z) => zeroed.deref(z)
  }

  /** `write_back`: delegated to the variant held. */
  function WriteBack<I, Z, A, IA>(
    self: InitOrZeroed<I, Z>, programId: Pubkey, init: Variant<I, A, IA>, zeroed: Variant<Z, A, ZeroedArg>)
    : Result<()>
  {
    match self
    case Init(i) => init.writeBack(i, programId)
    case Zeroed(z) => zeroed.writeBack(z, programId)
  }

  /** `add_keys`: the keys the variant held reports. */
  function AddKeys<I, Z, A, IA>(self: InitOrZeroed<I, Z>, init: Variant<I, A, IA>, zeroed: Variant<Z, A, ZeroedArg>)
    : seq<Pubkey>
  {
    match self
    case Init(i) => init.keys(i)
    case Zeroed(z) => zeroed.keys(z)
  }

  /** `is_signer`, `is_writable`, `is_owner`, `info`: asked of the account info the
      handle derefs to, through that account info's own indexing for `T`. */
  function IsSigner<I, Z, A, IA, T>(
    self: InitOrZeroed<I, Z>, index: T, init: Variant<I, A, IA>, zeroed: Variant<Z, A, ZeroedArg>,
    infoIsSigner: (AccountInfo, T) -> Result<bool>)
    : Result<bool>
  {
    infoIsSigner(Deref(self, init, zeroed).info, index)
  }

  function IsWritable<I, Z, A, IA, T>(
    self: InitOrZeroed<I, Z>, index: T, init: Variant<I, A, IA>, zeroed: Variant<Z, A, ZeroedArg>,
    infoIsWritable: (AccountInfo, T) -> Result<bool>)
    : Result<bool>
  {
    infoIsWritable(Deref(self, init, zeroed).info, index)
  }

  function IsOwner<I, Z, A, IA, T>(
    self: InitOrZeroed<I, Z>, owner: Pubkey, index: T, init: Variant<I, A, IA>, zeroed: Variant<Z, A, ZeroedArg>,
    infoIsOwner: (AccountInfo, Pubkey, T) -> Result<bool>)
    : Result<bool>
  {
    infoIsOwner(Deref(self, init, zeroed).info, owner, index)
  }

  function Info<I, Z, A, IA, T>(
    self: InitOrZeroed<I, Z>, index: T, init: Variant<I, A, IA>, zeroed: Variant<Z, A, ZeroedArg>,
    infoInfo: (AccountInfo, T) -> Result<AccountInfo>)
    : Result<AccountInfo>
  {
    infoInfo(Deref(self, init, zeroed).info, index)
  }

  /** The queries see only the account info: an `Init` and a `Zeroed` handle over
      the same account info answer every query alike. */
  lemma QueriesIgnoreVariant<I, Z, A, IA, T>(
    i: I, z: Z, index: T, owner: Pubkey, init: Variant<I, A, IA>, zeroed: Variant<Z, A, ZeroedArg>,
    isSigner: (AccountInfo, T) -> Result<bool>, isWritable: (AccountInfo, T) -> Result<bool>,
    isOwner: (AccountInfo, Pubkey, T) -> Result<bool>, info: (AccountInfo, T) -> Result<AccountInfo>)
    requires init.deref(i).info == zeroed.deref(z).info
    ensures IsSigner(Init(i), index, init, zeroed, isSigner) == IsSigner(Zeroed(z), index, init, zeroed, isSigner)
            == isSigner(init.deref(i).info, index)
    ensures IsWritable(Init(i), index, init, zeroed, isWritable) == IsWritable(Zeroed(z), index, init, zeroed, isWritable)
            == isWritable(init.deref(i).info, index)
    ensures IsOwner(Init(i), owner, index, init, zeroed, isOwner) == IsOwner(Zeroed(z), owner, index, init, zeroed, isOwner)
            == isOwner(init.deref(i).info, owner, index)
    ensures Info(Init(i), index, init, zeroed, info) == Info(Zeroed(z), index, init, zeroed, info)
            == info(init.deref(i).info, index)
  {
  }

  /** Write-back and key listing are those of the variant held. */
  lemma DelegatesToVariant<I, Z, A, IA>(
    self: InitOrZeroed<I, Z>, programId: Pubkey, init: Variant<I, A, IA>, zeroed: Variant<Z, A, ZeroedArg>)
    ensures self.Init? ==>
      && WriteBack(self, programId, init, zeroed) == init.writeBack(self.init, programId)
      && AddKeys(self, init, zeroed) == init.keys(self.init)
      && Deref(self, init, zeroed) == init.deref(self.init)
    ensures self.Zeroed? ==>
      && WriteBack(self, programId, init, zeroed) == zeroed.writeBack(self.zeroed, programId)
      && AddKeys(self, init, zeroed) == zeroed.keys(self.zeroed)
      && Deref(self, init, zeroed) == zeroed.deref(self.zeroed)
  {
  }

  /** A `Zeroed` handle ignores the init arguments; an `Init` handle ignores
      `CheckAll`, so the two validate forms agree on it. */
  lemma ValidateFormsAgree<I, Z, A, IA>(
    self: InitOrZeroed<I, Z>, programId: Pubkey, a: IA, b: IA,
    init: Variant<I, A, IA>, zeroed: Variant<Z, A, ZeroedArg>)
    ensures self.Zeroed? ==> Validate(self, programId, a, init, zeroed) == Validate(self, programId, b, init, zeroed)
    ensures self.Zeroed? ==>
      ValidateCheckAll(self, programId, a, init, zeroed) == ValidateCheckAll(self, programId, b, init, zeroed)
    ensures self.Init? ==> Validate(self, programId, a, init, zeroed) == ValidateCheckAll(self, programId, a, init, zeroed)
  {
  }
}
