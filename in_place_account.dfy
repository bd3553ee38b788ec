/** `InPlaceAccount<AI, AL, D>`: an account whose data is accessed in place. Its
    buffer starts with the compressed discriminant of the account type, followed
    by the payload. `validate(())` checks that discriminant; `validate(Create)`
    creates a system-owned account or adopts a zeroed program-owned one, then
    writes the discriminant and the initial payload. */
module InPlaceAccounts {
  import opened Accounts

  /** The compressed-number encoding of an account list's discriminants: values
      below `limit` are encoded in at most `maxBytes` bytes. */
  datatype Codec = Codec(
    limit: nat,
    maxBytes: nat,
    encode: nat -> seq<bv8>,
    decode: seq<bv8> -> Result<nat>)

  /** Every encodable value takes one to `maxBytes` bytes, and decoding a buffer
      that starts with an encoding gives back the encoded value. */
  ghost predicate ValidCodec(c: Codec) {
    && (forall n: nat | n < c.limit :: 1 <= |c.encode(n)| <= c.maxBytes)
    && (forall n: nat, rest: seq<bv8> | n < c.limit :: c.decode(c.encode(n) + rest) == Ok(n))
  }

  /** The account list item `AL` for the data type `D`: its discriminant and the
      encoding of its family's discriminants. */
  datatype ListItem = ListItem(discriminant: nat, codec: Codec)

  ghost predicate ValidItem(item: ListItem) {
    ValidCodec(item.codec) && item.discriminant < item.codec.limit
  }

  /** `AL::compressed_discriminant()` serialized. */
  function Encoded(item: ListItem): seq<bv8> {
    item.codec.encode(item.discriminant)
  }

  /** The validations of the two inner fields, the account info and the phantom
      account, each with argument `()`. */
  datatype InnerChecks = InnerChecks(
    info: (AccountInfo, Pubkey) -> Result<()>,
    phantom: Pubkey -> Result<()>)

  /** Decodes the leading discriminant of `data` and compares it with the
      expected one. */
  function DiscriminantCheck(key: Pubkey, data: seq<bv8>, item: ListItem): (r: Result<()>)
    ensures r.Ok? <==> item.codec.decode(data) == Ok(item.discriminant)
    ensures item.codec.decode(data).Err? ==> r == Err(item.codec.decode(data).error)
    ensures item.codec.decode(data).Ok? && r.Err? ==>
      r.error == MismatchedDiscriminant(key, item.codec.decode(data).value, item.discriminant)
  {
    match item.codec.decode(data)
    case Err(e) => Err(e)
    case Ok(received) =>
      if received == item.discriminant then Ok(())
      else Err(MismatchedDiscriminant(key, received, item.discriminant))
  }

  /** A buffer that starts with the item's encoded discriminant passes the check. */
  lemma WrittenDiscriminantPasses(key: Pubkey, data: seq<bv8>, item: ListItem)
    requires ValidItem(item)
    requires |Encoded(item)| <= |data| && data[..|Encoded(item)|] == Encoded(item)
    ensures DiscriminantCheck(key, data, item) == Ok(())
  {
    var n := |Encoded(item)|;
    assert data == Encoded(item) + data[n..];
  }

  /** A buffer that starts with the discriminant of another member of the family
      is rejected, and the error names both discriminants. */
  lemma OtherDiscriminantRejected(key: Pubkey, data: seq<bv8>, item: ListItem, other: nat)
    requires ValidItem(item) && other < item.codec.limit && other != item.discriminant
    requires |item.codec.encode(other)| <= |data| && data[..|item.codec.encode(other)|] == item.codec.encode(other)
    ensures DiscriminantCheck(key, data, item) == Err(MismatchedDiscriminant(key, other, item.discriminant))
  {
    var n := |item.codec.encode(other)|;
    assert data == item.codec.encode(other) + data[n..];
  }

  /** A program-derived-address seed set, passed through to the host untouched. */
  datatype SeedSet = SeedSet(seeds: seq<seq<bv8>>, bump: bv8)

  /** The signer seeds of the create call: the funder's first, then the
      account's, each only when given. */
  function CollectSeeds(funder: Option<SeedSet>, account: Option<SeedSet>): (r: seq<SeedSet>)
    ensures |r| <= 2
    ensures |r| == (if funder.Some? then 1 else 0) + (if account.Some? then 1 else 0)
    ensures funder.Some? ==> r[0] == funder.value
    ensures account.Some? ==> r[|r| - 1] == account.value
  {
    (if funder.Some? then [funder.value] else []) + (if account.Some? then [account.value] else [])
  }

  /** The `Create` argument. `data` is the payload handed to `D::create_with_arg`;
      the system program and the CPI method are separate parameters. */
  datatype Create<C> = Create(
    data: C,
    rent: Option<Rent>,
    space: nat,
    funder: Pubkey,
    funderSeeds: Option<SeedSet>,
    accountSeeds: Option<SeedSet>)

  /** One `create_account` instruction sent to the system program. */
  datatype CreateAccountCall = CreateAccountCall(
    funder: Pubkey,
    account: Pubkey,
    lamports: nat,
    space: nat,
    owner: Pubkey,
    seeds: seq<SeedSet>)

  /** The lamports the new account needs: the passed rent, or the host's when
      none is passed, for the discriminant's bytes plus `space`. */
  function RequiredLamports<C>(item: ListItem, arg: Create<C>, sysvars: Sysvars): (r: Result<nat>)
    ensures arg.rent.Some? ==> r == Ok(arg.rent.value.minimumBalance(|Encoded(item)| + arg.space))
    ensures arg.rent.None? && sysvars.rent.Err? ==> r == Err(sysvars.rent.error)
    ensures arg.rent.None? && sysvars.rent.Ok? ==>
      r == Ok(sysvars.rent.value.minimumBalance(|Encoded(item)| + arg.space))
  {
    var rent :=
      match arg.rent
      case Some(rent) => Ok(rent)
      case None => sysvars.rent;
    match rent
    case Err(e) => Err(e)
    case Ok(rent) => Ok(rent.minimumBalance(|Encoded(item)| + arg.space))
  }

  /** What happens before the owner branch: the two inner validations, then the
      rent. Its value is the lamports the new account needs. */
  function Prelude<C>(info: AccountInfo, programId: Pubkey, item: ListItem, checks: InnerChecks,
                      arg: Create<C>, sysvars: Sysvars): Result<nat>
  {
    match checks.info(info, programId)
    case Err(e) => Err(e)
    case Ok(_) =>
      match checks.phantom(programId)
      case Err(e) => Err(e)
      case Ok(_) => RequiredLamports(item, arg, sysvars)
  }

  function Zeros(n: nat): (r: seq<bv8>)
    ensures |r| == n && forall i :: 0 <= i < n ==> r[i] == 0
  {
    seq(n, _ => 0 as bv8)
  }

  /** Some byte among the first `limit` bytes of `s` (or all of `s`, if shorter) is non-zero. */
  ghost predicate NonZeroIn(s: seq<bv8>, limit: nat) {
    exists i :: 0 <= i < |s| && i < limit && s[i] != 0
  }

  /** `s` after writing `bytes` from index `from` on, keeping only the bytes that
      fit: the effect of writing through an advancing `&mut [u8]`. */
  function Overwrite(s: seq<bv8>, from: nat, bytes: seq<bv8>): (r: seq<bv8>)
    requires from <= |s|
    ensures |r| == |s|
    ensures r[..from] == s[..from]
    ensures forall j :: from <= j < |s| && j < from + |bytes| ==> r[j] == bytes[j - from]
    ensures forall j :: from + |bytes| <= j < |s| ==> r[j] == s[j]
    ensures from + |bytes| <= |s| ==> r == s[..from] + bytes + s[from + |bytes|..]
  {
    var r := seq(|s|, j requires 0 <= j < |s| => if from <= j < from + |bytes| then bytes[j - from] else s[j]);
    assert from + |bytes| <= |s| ==> r == s[..from] + bytes + s[from + |bytes|..];
    r
  }

  /** `create_with_arg` rewrites the slice it is given and keeps its length. */
  ghost predicate SlicePreserving<C(!new)>(create: (seq<bv8>, C) -> Result<seq<bv8>>) {
    forall s, c :: create(s, c).Ok? ==> |create(s, c).value| == |s|
  }

  /** The result, the account afterwards and the CPIs issued by `validate(Create)`. */
  datatype CreateOutcome = CreateOutcome(result: Result<()>, after: AccountInfo, calls: seq<CreateAccountCall>)

  /** The write phase: the discriminant first, then the payload into the bytes
      after it. A discriminant that does not fit is written as far as it fits. */
  function WriteSpec<C>(info: AccountInfo, item: ListItem, create: (seq<bv8>, C) -> Result<seq<bv8>>, payload: C)
    : (Result<()>, AccountInfo)
  {
    var enc := Encoded(item);
    var withTag := Overwrite(info.data, 0, enc);
    if |info.data| < |enc| then
      (Err(WriteZero), info.(data := withTag))
    else
      match create(info.data[|enc|..], payload)
      case Err(e) => (Err(e), info.(data := withTag))
      case Ok(bytes) => (Ok(()), info.(data := Overwrite(withTag, |enc|, bytes)))
  }

  /** The owner branch of `validate(Create)`, given the lamports the account
      needs: create a system-owned account through the system program, accept a
      program-owned account whose leading bytes are zero, reject any other owner.
      An `Ok` result means the write phase follows, on the account `after`. */
  ghost function BranchSpec<C>(
    info: AccountInfo, programId: Pubkey, item: ListItem, arg: Create<C>, needed: nat,
    verdict: CreateAccountCall -> Result<()>, space: nat)
    : CreateOutcome
  {
    if info.owner == SystemProgramKey then
      var call := CreateAccountCall(arg.funder, info.key, needed, space, programId,
                                    CollectSeeds(arg.funderSeeds, arg.accountSeeds));
      var cpi := verdict(call);
      if cpi.Err? then CreateOutcome(cpi, info, [call])
      else CreateOutcome(cpi, info.(owner := programId, lamports := info.lamports + needed, data := Zeros(space)), [call])
    else if info.owner == programId then
      if NonZeroIn(info.data, item.codec.maxBytes) then
        CreateOutcome(Err(NonZeroedData(info.key)), info, [])
      else
        CreateOutcome(Ok(()), info, [])
    else
      CreateOutcome(Err(AccountOwnerNotEqual(info.key, info.owner, [programId, SystemProgramKey])), info, [])
  }

  /** The reference definition of `validate(Create)` on the account snapshot
      `info`, with the host's verdict on a create call and `create_with_arg` as
      parameters and `space` the size the create call asks for. */
  ghost function CreateSpec<C>(
    info: AccountInfo, programId: Pubkey, item: ListItem, checks: InnerChecks, arg: Create<C>,
    sysvars: Sysvars, verdict: CreateAccountCall -> Result<()>,
    create: (seq<bv8>, C) -> Result<seq<bv8>>, space: nat)
    : CreateOutcome
  {
    match Prelude(info, programId, item, checks, arg, sysvars)
    case Err(e) => CreateOutcome(Err(e), info, [])
    case Ok(needed) =>
      var b := BranchSpec(info, programId, item, arg, needed, verdict, space);
      if b.result.Err? then b
      else
        var w := WriteSpec(b.after, item, create, arg.data);
        CreateOutcome(w.0, w.1, b.calls)
  }

  /** A failure of an inner validation or of the rent lookup is returned before
      the owner is looked at: no call is issued and the account is untouched. */
  lemma PreludeFailureChangesNothing<C>(
    info: AccountInfo, programId: Pubkey, item: ListItem, checks: InnerChecks, arg: Create<C>,
    sysvars: Sysvars, verdict: CreateAccountCall -> Result<()>,
    create: (seq<bv8>, C) -> Result<seq<bv8>>, space: nat)
    requires Prelude(info, programId, item, checks, arg, sysvars).Err?
    ensures CreateSpec(info, programId, item, checks, arg, sysvars, verdict, create, space)
         == CreateOutcome(Err(Prelude(info, programId, item, checks, arg, sysvars).error), info, [])
    ensures checks.info(info, programId).Err? ==>
      Prelude(info, programId, item, checks, arg, sysvars) == Err(checks.info(info, programId).error)
  {
  }

  /** An owner other than the system program and this program is rejected with
      both accepted owners listed, and nothing changes. */
  lemma ForeignOwnerRejected<C>(
    info: AccountInfo, programId: Pubkey, item: ListItem, checks: InnerChecks, arg: Create<C>,
    sysvars: Sysvars, verdict: CreateAccountCall -> Result<()>,
    create: (seq<bv8>, C) -> Result<seq<bv8>>, space: nat)
    requires Prelude(info, programId, item, checks, arg, sysvars).Ok?
    requires info.owner != SystemProgramKey && info.owner != programId
    ensures CreateSpec(info, programId, item, checks, arg, sysvars, verdict, create, space)
         == CreateOutcome(Err(AccountOwnerNotEqual(info.key, info.owner, [programId, SystemProgramKey])), info, [])
  {
  }

  /** A program-owned account with a non-zero byte among its first `maxBytes`
      bytes is rejected with `NonZeroedData`, and nothing is written. */
  lemma DirtyAccountNotAdopted<C>(
    info: AccountInfo, programId: Pubkey, item: ListItem, checks: InnerChecks, arg: Create<C>,
    sysvars: Sysvars, verdict: CreateAccountCall -> Result<()>,
    create: (seq<bv8>, C) -> Result<seq<bv8>>, space: nat, i: nat)
    requires Prelude(info, programId, item, checks, arg, sysvars).Ok?
    requires info.owner == programId && programId != SystemProgramKey
    requires i < |info.data| && i < item.codec.maxBytes && info.data[i] != 0
    ensures CreateSpec(info, programId, item, checks, arg, sysvars, verdict, create, space)
         == CreateOutcome(Err(NonZeroedData(info.key)), info, [])
  {
  }

  /** A program-owned account whose leading bytes are zero is adopted without
      any call: the write phase runs on it as it is. Only the bytes the buffer
      has are inspected, so a buffer shorter than `maxBytes` that is all zero
      is adopted too. */
  lemma ZeroedAccountAdopted<C>(
    info: AccountInfo, programId: Pubkey, item: ListItem, checks: InnerChecks, arg: Create<C>,
    sysvars: Sysvars, verdict: CreateAccountCall -> Result<()>,
    create: (seq<bv8>, C) -> Result<seq<bv8>>, space: nat)
    requires Prelude(info, programId, item, checks, arg, sysvars).Ok?
    requires info.owner == programId && programId != SystemProgramKey
    requires forall i :: 0 <= i < |info.data| && i < item.codec.maxBytes ==> info.data[i] == 0
    ensures var o := CreateSpec(info, programId, item, checks, arg, sysvars, verdict, create, space);
      && o.calls == []
      && (o.result, o.after) == WriteSpec(info, item, create, arg.data)
  {
  }

  /** A system-owned account gets exactly one create call: funded by the
      funder, for the needed lamports, owned by this program, with the
      collected seeds; its outcome is the host's verdict unless it succeeds. */
  lemma SystemAccountGetsOneCreateCall<C>(
    info: AccountInfo, programId: Pubkey, item: ListItem, checks: InnerChecks, arg: Create<C>,
    sysvars: Sysvars, verdict: CreateAccountCall -> Result<()>,
    create: (seq<bv8>, C) -> Result<seq<bv8>>, space: nat)
    requires Prelude(info, programId, item, checks, arg, sysvars).Ok?
    requires info.owner == SystemProgramKey
    ensures var needed := Prelude(info, programId, item, checks, arg, sysvars).value;
      var call := CreateAccountCall(arg.funder, info.key, needed, space, programId,
                                    CollectSeeds(arg.funderSeeds, arg.accountSeeds));
      var o := CreateSpec(info, programId, item, checks, arg, sysvars, verdict, create, space);
      && needed == RequiredLamports(item, arg, sysvars).value
      && o.calls == [call]
      && (verdict(call).Err? ==> o.result == verdict(call) && o.after == info)
  {
  }

  /** After a successful create or adoption the account is owned by this program
      and its buffer starts with the encoded discriminant, so the discriminant
      check of `validate(())` passes on it. */
  lemma SuccessfulCreateValidates<C>(
    info: AccountInfo, programId: Pubkey, item: ListItem, checks: InnerChecks, arg: Create<C>,
    sysvars: Sysvars, verdict: CreateAccountCall -> Result<()>,
    create: (seq<bv8>, C) -> Result<seq<bv8>>, space: nat)
    requires ValidItem(item)
    requires CreateSpec(info, programId, item, checks, arg, sysvars, verdict, create, space).result.Ok?
    ensures var after := CreateSpec(info, programId, item, checks, arg, sysvars, verdict, create, space).after;
      && after.owner == programId && after.key == info.key
      && |Encoded(item)| <= |after.data| && after.data[..|Encoded(item)|] == Encoded(item)
      && DiscriminantCheck(after.key, after.data, item) == Ok(())
  {
    var needed := Prelude(info, programId, item, checks, arg, sysvars).value;
    var b := BranchSpec(info, programId, item, arg, needed, verdict, space);
    var enc := Encoded(item);
    var withTag := Overwrite(b.after.data, 0, enc);
    var bytes := create(b.after.data[|enc|..], arg.data).value;
    var after := Overwrite(withTag, |enc|, bytes);
    assert after[..|enc|] == withTag[..|enc|] == enc;
    WrittenDiscriminantPasses(info.key, after, item);
  }

  /** On success the payload occupies exactly the bytes after the discriminant:
      the buffer is the encoded discriminant followed by what `create_with_arg`
      made of the rest of the buffer. */
  lemma PayloadFollowsDiscriminant<C(!new)>(
    info: AccountInfo, programId: Pubkey, item: ListItem, checks: InnerChecks, arg: Create<C>,
    sysvars: Sysvars, verdict: CreateAccountCall -> Result<()>,
    create: (seq<bv8>, C) -> Result<seq<bv8>>, space: nat)
    requires SlicePreserving(create)
    requires CreateSpec(info, programId, item, checks, arg, sysvars, verdict, create, space).result.Ok?
    ensures var needed := Prelude(info, programId, item, checks, arg, sysvars).value;
      var buffer := BranchSpec(info, programId, item, arg, needed, verdict, space).after.data;
      && |Encoded(item)| <= |buffer|
      && create(buffer[|Encoded(item)|..], arg.data).Ok?
      && CreateSpec(info, programId, item, checks, arg, sysvars, verdict, create, space).after.data
         == Encoded(item) + create(buffer[|Encoded(item)|..], arg.data).value
  {
  }

  /** As written, the create call asks for `space: 0`, so a system-owned account
      is created with an empty buffer and the discriminant write that follows
      fails: the create path can never succeed. */
  lemma CreateWithZeroSpaceFails<C>(
    info: AccountInfo, programId: Pubkey, item: ListItem, checks: InnerChecks, arg: Create<C>,
    sysvars: Sysvars, verdict: CreateAccountCall -> Result<()>,
    create: (seq<bv8>, C) -> Result<seq<bv8>>)
    requires ValidItem(item)
    requires Prelude(info, programId, item, checks, arg, sysvars).Ok?
    requires info.owner == SystemProgramKey
    ensures CreateSpec(info, programId, item, checks, arg, sysvars, verdict, create, 0).result.Err?
    ensures var needed := Prelude(info, programId, item, checks, arg, sysvars).value;
      verdict(CreateAccountCall(arg.funder, info.key, needed, 0, programId,
                                CollectSeeds(arg.funderSeeds, arg.accountSeeds))).Ok? ==>
      CreateSpec(info, programId, item, checks, arg, sysvars, verdict, create, 0).result == Err(WriteZero)
  {
  }

  /** With the create call asking for the discriminant's bytes plus `space` (the
      size the rent is computed for), a system-owned account that the host
      creates and whose payload fits ends up owned by this program, funded with
      the needed lamports, and passing the discriminant check. */
  lemma SizedCreateSucceeds<C>(
    info: AccountInfo, programId: Pubkey, item: ListItem, checks: InnerChecks, arg: Create<C>,
    sysvars: Sysvars, verdict: CreateAccountCall -> Result<()>,
    create: (seq<bv8>, C) -> Result<seq<bv8>>)
    requires ValidItem(item)
    requires Prelude(info, programId, item, checks, arg, sysvars).Ok?
    requires info.owner == SystemProgramKey
    requires verdict(CreateAccountCall(arg.funder, info.key, Prelude(info, programId, item, checks, arg, sysvars).value,
                                       |Encoded(item)| + arg.space, programId,
                                       CollectSeeds(arg.funderSeeds, arg.accountSeeds))).Ok?
    requires create(Zeros(arg.space), arg.data).Ok?
    ensures var o := CreateSpec(info, programId, item, checks, arg, sysvars, verdict, create, |Encoded(item)| + arg.space);
      && o.result == Ok(())
      && o.after.owner == programId
      && o.after.lamports == info.lamports + Prelude(info, programId, item, checks, arg, sysvars).value
      && DiscriminantCheck(o.after.key, o.after.data, item) == Ok(())
  {
    var enc := Encoded(item);
    var space := |enc| + arg.space;
    assert Zeros(space)[|enc|..] == Zeros(arg.space);
    SuccessfulCreateValidates(info, programId, item, checks, arg, sysvars, verdict, create, space);
  }

  /** The system program as seen from the create path: it logs each
      `create_account` call and the host decides whether it succeeds. */
  class SystemProgram {
    var issued: seq<CreateAccountCall>
    const verdict: CreateAccountCall -> Result<()>

    constructor (verdict: CreateAccountCall -> Result<()>)
      ensures issued == [] && this.verdict == verdict
    {
      this.verdict := verdict;
      issued := [];
    }

    /** On success the account gets the new owner, the transferred lamports and
        a zeroed buffer of the requested size; on failure it is untouched. */
    method CreateAccount(call: CreateAccountCall, account: InPlaceAccount) returns (r: Result<()>)
      modifies this, account
      ensures issued == old(issued) + [call] && r == verdict(call)
      ensures r.Err? ==> account.Info() == old(account.Info())
      ensures r.Ok? ==> fresh(account.data)
      ensures r.Ok? ==> account.Info() == old(account.Info()).(
        owner := call.owner, lamports := old(account.lamports) + call.lamports, data := Zeros(call.space))
    {
      issued := issued + [call];
      r := verdict(call);
      if r.Ok? {
        account.owner := call.owner;
        account.lamports := account.lamports + call.lamports;
        account.data := new bv8[call.space](_ => 0 as bv8);
      }
    }
  }

  /** The account info held by an InPlaceAccount: key and flags are fixed; owner,
      lamports and the data buffer can change. The phantom field has no state. */
  class InPlaceAccount {
    const key: Pubkey
    var owner: Pubkey
    const isSigner: bool
    const isWritable: bool
    var lamports: nat
    var data: array<bv8>

    constructor (info: AccountInfo)
      ensures Info() == info && fresh(data)
    {
      key, isSigner, isWritable := info.key, info.isSigner, info.isWritable;
      owner, lamports := info.owner, info.lamports;
      data := new bv8[|info.data|](i requires 0 <= i < |info.data| => info.data[i]);
    }

    function Info(): AccountInfo
      reads this, data
    {
      AccountInfo(key, owner, isSigner, isWritable, lamports, data[..])
    }

    /** `validate(())`: both inner validations, then the discriminant check. */
    function Validate(programId: Pubkey, item: ListItem, checks: InnerChecks): (r: Result<()>)
      reads this, data
      ensures checks.info(Info(), programId).Err? ==> r == Err(checks.info(Info(), programId).error)
      ensures checks.info(Info(), programId).Ok? && checks.phantom(programId).Err? ==>
        r == Err(checks.phantom(programId).error)
      ensures r.Ok? <==>
        checks.info(Info(), programId).Ok? && checks.phantom(programId).Ok?
        && item.codec.decode(data[..]) == Ok(item.discriminant)
      ensures checks.info(Info(), programId).Ok? && checks.phantom(programId).Ok? ==>
        r == DiscriminantCheck(key, data[..], item)
    {
      match checks.info(Info(), programId)
      case Err(e) => Err(e)
      case Ok(_) =>
        match checks.phantom(programId)
        case Err(e) => Err(e)
        case Ok(_) => DiscriminantCheck(key, data[..], item)
    }

    /** `data.iter().take(limit).any(|b| *b != 0)`. */
    method HasNonZeroPrefix(limit: nat) returns (found: bool)
      ensures found <==> NonZeroIn(data[..], limit)
    {
      var i := 0;
      while i < data.Length && i < limit
        invariant 0 <= i <= data.Length
        invariant forall j :: 0 <= j < i ==> data[j] == 0
      {
        if data[i] != 0 {
          assert data[..][i] != 0;
          return true;
        }
        i := i + 1;
      }
      return false;
    }

    /** Writes `bytes` from index `from` on through the advancing slice, as far
        as they fit; `ok` tells whether all of them fit. */
    method WriteAll(bytes: seq<bv8>, from: nat) returns (next: nat, ok: bool)
      requires from <= data.Length
      modifies data
      ensures ok <==> from + |bytes| <= data.Length
      ensures next == if ok then from + |bytes| else data.Length
      ensures data[..] == Overwrite(old(data[..]), from, bytes)
    {
      var i := 0;
      while i < |bytes| && from + i < data.Length
        invariant 0 <= i <= |bytes| && from + i <= data.Length
        invariant forall j :: 0 <= j < data.Length ==>
          data[j] == if from <= j < from + i then bytes[j - from] else old(data[j])
      {
        data[from + i] := bytes[i];
        i := i + 1;
      }
      next, ok := from + i, i == |bytes|;
    }

    /** The owner branch, after the prelude has computed the needed lamports. */
    method OwnerBranch<C>(
      programId: Pubkey, item: ListItem, arg: Create<C>, needed: nat, system: SystemProgram, space: nat)
      returns (r: Result<()>)
      modifies this, system
      ensures var o := BranchSpec(old(Info()), programId, item, arg, needed, system.verdict, space);
        r == o.result && Info() == o.after && system.issued == old(system.issued) + o.calls
      ensures r.Ok? ==> data == old(data) || fresh(data)
    {
      // The pushes into the two-slot `ShortIter`; they build the list `CollectSeeds` specifies.
      var seeds: seq<SeedSet> := [];
      if arg.funderSeeds.Some? {
        seeds := seeds + [arg.funderSeeds.value];
      }
      if arg.accountSeeds.Some? {
        seeds := seeds + [arg.accountSeeds.value];
      }
      assert seeds == CollectSeeds(arg.funderSeeds, arg.accountSeeds);

      if owner == SystemProgramKey {
        r := system.CreateAccount(CreateAccountCall(arg.funder, key, needed, space, programId, seeds), this);
      } else if owner == programId {
        var nonZero := HasNonZeroPrefix(item.codec.maxBytes);
        r := if nonZero then Err(NonZeroedData(key)) else Ok(());
      } else {
        r := Err(AccountOwnerNotEqual(key, owner, [programId, SystemProgramKey]));
      }
    }

    /** The write phase: the discriminant through the advancing slice, then the
        payload that `create_with_arg` makes of the rest of the buffer. */
    method WritePhase<C>(item: ListItem, create: (seq<bv8>, C) -> Result<seq<bv8>>, payload: C)
      returns (r: Result<()>)
      modifies data
      ensures (r, Info()) == WriteSpec(old(Info()), item, create, payload)
    {
      ghost var before := data[..];
      var encoded := item.codec.encode(item.discriminant);
      var next, ok := WriteAll(encoded, 0);
      if !ok {
        return Err(WriteZero);
      }
      assert data[next..] == before[|encoded|..];
      var bytes := create(data[next..], payload);
      if bytes.Err? {
        return Err(bytes.error);
      }
      next, ok := WriteAll(bytes.value, next);
      r := Ok(());
    }

    /** The create-or-adopt algorithm, with `space` the size the create call asks for. */
    method CreateOrAdopt<C>(
      programId: Pubkey, item: ListItem, checks: InnerChecks, arg: Create<C>, sysvars: Sysvars,
      system: SystemProgram, create: (seq<bv8>, C) -> Result<seq<bv8>>, space: nat)
      returns (r: Result<()>)
      modifies this, data, system
      ensures var o := CreateSpec(old(Info()), programId, item, checks, arg, sysvars, system.verdict, create, space);
        r == o.result && Info() == o.after && system.issued == old(system.issued) + o.calls
    {
      var validated := checks.info(Info(), programId);
      if validated.Err? {
        return Err(validated.error);
      }
      var phantom := checks.phantom(programId);
      if phantom.Err? {
        return Err(phantom.error);
      }
      var needed := RequiredLamports(item, arg, sysvars);
      if needed.Err? {
        return Err(needed.error);
      }
      r := OwnerBranch(programId, item, arg, needed.value, system, space);
      if r.Err? {
        return;
      }
      r := WritePhase(item, create, arg.data);
    }

    /** `validate(Create)` as written: the create call asks for `space: 0`. */
    method ValidateCreate<C>(
      programId: Pubkey, item: ListItem, checks: InnerChecks, arg: Create<C>, sysvars: Sysvars,
      system: SystemProgram, create: (seq<bv8>, C) -> Result<seq<bv8>>)
      returns (r: Result<()>)
      modifies this, data, system
      ensures var o := CreateSpec(old(Info()), programId, item, checks, arg, sysvars, system.verdict, create, 0);
        r == o.result && Info() == o.after && system.issued == old(system.issued) + o.calls
    {
      r := CreateOrAdopt(programId, item, checks, arg, sysvars, system, create, 0);
    }

    /** `validate(Create)` with the create call asking for the discriminant's
        bytes plus `space`, the size the rent is computed for. */
    method ValidateCreateSized<C>(
      programId: Pubkey, item: ListItem, checks: InnerChecks, arg: Create<C>, sysvars: Sysvars,
      system: SystemProgram, create: (seq<bv8>, C) -> Result<seq<bv8>>)
      returns (r: Result<()>)
      modifies this, data, system
      ensures var o := CreateSpec(old(Info()), programId, item, checks, arg, sysvars, system.verdict, create,
                                  |Encoded(item)| + arg.space);
        r == o.result && Info() == o.after && system.issued == old(system.issued) + o.calls
    {
      r := CreateOrAdopt(programId, item, checks, arg, sysvars, system, create, |Encoded(item)| + arg.space);
    }
  }
}
