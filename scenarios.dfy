/** Concrete instances of the wrappers: a one-byte discriminant encoding, the
    escrow account's `RentExempt<InitOrZeroedAccount<..>>` composition, and the
    create path of an InPlaceAccount run on a fresh system-owned account. */
module Scenarios {
  import opened Accounts
  import RentExemptAccount
  import InitOrZeroedAccount
  import opened InPlaceAccounts

  function EncodeByte(n: nat): seq<bv8> {
    [(n % 256) as bv8]
  }

  function DecodeByte(s: seq<bv8>): Result<nat> {
    if |s| == 0 then Err(DecodeFailed) else Ok(s[0] as nat)
  }

  /** Discriminants below 256 stored as a single byte; an empty buffer does not decode. */
  const ByteCodec: Codec := Codec(256, 1, EncodeByte, DecodeByte)

  lemma ByteCodecRoundTrips()
    ensures ValidCodec(ByteCodec)
    ensures ByteCodec.decode([]) == Err(DecodeFailed)
  {
  }

  /** The escrow state: three keys and a u64, 3 * 32 + 8 bytes on chain. */
  const EscrowSize: nat := 3 * 32 + 8

  /** An escrow-like account type with discriminant 1. */
  const EscrowItem: ListItem := ListItem(1, ByteCodec)

  const ProgramKey: Pubkey := seq(32, _ => 7 as bv8)
  const EscrowKey: Pubkey := seq(32, _ => 9 as bv8)
  const FunderKey: Pubkey := seq(32, _ => 3 as bv8)

  function AcceptInfo(info: AccountInfo, programId: Pubkey): Result<()> {
    Ok(())
  }

  function AcceptPhantom(programId: Pubkey): Result<()> {
    Ok(())
  }

  /** Inner validations that accept everything. */
  const AcceptAll: InnerChecks := InnerChecks(AcceptInfo, AcceptPhantom)

  /** A host that carries out every create call. */
  function AcceptCall(call: CreateAccountCall): Result<()> {
    Ok(())
  }

  /** A rent table charging 1000 lamports plus one per byte. */
  function FlatRent(bytes: nat): nat {
    1000 + bytes
  }

  /** `create_with_arg` that copies the initial payload to the front of the slice
      it is given and fails when the payload does not fit. */
  function CopyPayload(slice: seq<bv8>, payload: seq<bv8>): (r: Result<seq<bv8>>)
    ensures r.Ok? <==> |payload| <= |slice|
    ensures r.Ok? ==> |r.value| == |slice| && r.value[..|payload|] == payload
  {
    if |payload| <= |slice| then Ok(payload + slice[|payload|..]) else Err(WriteZero)
  }

  /** The creation argument for a fresh escrow account: an all-zero payload of
      the escrow's size and a rent table charging 1000 plus one lamport per byte. */
  const EscrowCreate: Create<seq<bv8>> :=
    Create(Zeros(EscrowSize), Some(Rent(FlatRent)), EscrowSize, FunderKey, None, None)

  /** A system-owned, empty, unfunded account at the escrow address. */
  const FreshAccount: AccountInfo := AccountInfo(EscrowKey, SystemProgramKey, false, true, 0, [])

  /** As written, creating the escrow account through `validate(Create)` fails
      with `WriteZero` even though the system program accepts the call. */
  method CreateEscrowAsWritten() returns (r: Result<()>)
    ensures r == Err(WriteZero)
  {
    ByteCodecRoundTrips();
    var account := new InPlaceAccount(FreshAccount);
    var system := new SystemProgram(AcceptCall);
    var arg := EscrowCreate;
    r := account.ValidateCreate(ProgramKey, EscrowItem, AcceptAll, arg, Sysvars(Err(SysvarUnavailable)),
                                system, CopyPayload);
    CreateWithZeroSpaceFails(FreshAccount, ProgramKey, EscrowItem, AcceptAll, arg,
                             Sysvars(Err(SysvarUnavailable)), AcceptCall, CopyPayload);
  }

  /** With the create call sized for the discriminant plus the payload, the same
      creation succeeds: the account is funded for 1 + 104 bytes and a later
      `validate(())` accepts it. */
  method CreateEscrowSized() returns (r: Result<()>, lamports: nat, check: Result<()>)
    ensures r == Ok(())
    ensures lamports == 1000 + 1 + EscrowSize
    ensures check == Ok(())
  {
    ByteCodecRoundTrips();
    var account := new InPlaceAccount(FreshAccount);
    var system := new SystemProgram(AcceptCall);
    var arg := EscrowCreate;
    r := account.ValidateCreateSized(ProgramKey, EscrowItem, AcceptAll, arg, Sysvars(Err(SysvarUnavailable)),
                                     system, CopyPayload);
    SizedCreateSucceeds(FreshAccount, ProgramKey, EscrowItem, AcceptAll, arg,
                        Sysvars(Err(SysvarUnavailable)), AcceptCall, CopyPayload);
    lamports := account.lamports;
    check := account.Validate(ProgramKey, EscrowItem, AcceptAll);
  }

  /** The escrow account argument `RentExempt<InitOrZeroedAccount<..>>` validated
      with `(InitArgs,)`: the variant's own validation first (a zeroed account
      with `()`), then the rent check on the account the handle derefs to. */
  function EscrowInner<I, Z, A, IA>(
    init: InitOrZeroedAccount.Variant<I, A, IA>, zeroed: InitOrZeroedAccount.Variant<Z, A, InitOrZeroedAccount.ZeroedArg>)
    : RentExemptAccount.Inner<InitOrZeroedAccount.InitOrZeroed<I, Z>, IA, ()>
  {
    RentExemptAccount.Inner(
      (h, p, a) => InitOrZeroedAccount.Validate(h, p, a, init, zeroed),
      (h, _) => Ok(InitOrZeroedAccount.Deref(h, init, zeroed).info))
  }

  lemma EscrowZeroedValidation<I, Z, A, IA>(
    z: Z, programId: Pubkey, args: IA, sysvars: Sysvars,
    init: InitOrZeroedAccount.Variant<I, A, IA>, zeroed: InitOrZeroedAccount.Variant<Z, A, InitOrZeroedAccount.ZeroedArg>)
    requires sysvars.rent.Ok?
    ensures var r := RentExemptAccount.ValidateArg(
              RentExemptAccount.RentExempt(InitOrZeroedAccount.Zeroed(z)), programId, args, sysvars,
              EscrowInner(init, zeroed));
      var v := zeroed.validate(z, programId, InitOrZeroedAccount.UnitArg);
      && (v.Err? ==> r == Err(v.error))
      && (v.Ok? ==>
            var info := zeroed.deref(v.value).info;
            && (r.Ok? <==> info.lamports >= sysvars.rent.value.minimumBalance(|info.data|))
            && (r.Ok? ==> r.value == RentExemptAccount.RentExempt(InitOrZeroedAccount.Zeroed(v.value))))
  {
  }
}
