# Account-validation wrappers of the cruiser Solana framework, in Dafny

This project models three account-argument wrappers of the cruiser framework
(identity-com/solana_generator). A Solana program receives raw host accounts. Each
wrapper turns one of them into a checked handle.

- `RentExempt<A>` (module `RentExemptAccount`) is a transparent decorator. Every
  `validate` form reduces to the `(T, I, Rent)` form. That form runs the inner
  validator, looks up the indexed account, and requires
  `lamports >= rent.minimum_balance(data.len())`. Everything else is forwarded
  to the inner handle.
- `InitOrZeroedAccount<AL, A>` (module `InitOrZeroedAccount`) pulls one account.
  It becomes `Zeroed` when the program owns the account and `Init` otherwise.
  Every operation then dispatches on the variant.
- `InPlaceAccount<AI, AL, D>` (module `InPlaceAccounts`) has two validators.
  - `validate(())` checks the compressed discriminant at the front of the data
    buffer.
  - `validate(Create)` creates a system-owned account through the system
    program, or adopts a program-owned account whose leading bytes are zero.
    It then writes the discriminant and the initial payload into the buffer
    in place.

How each part is represented:

- The pure parts are datatypes and functions.
- `validate(Create)` is a method on a class `InPlaceAccount`. The class's
  owner, lamports and `array<bv8>` data buffer change in place.
- The system program is a class `SystemProgram`. It logs each
  `create_account` call, and a host verdict function decides whether the call
  succeeds.
- The method is proved against a reference function `CreateSpec`. The lemmas
  about `CreateSpec` state the algorithm's guarantees.
- Module `Accounts` holds the shared vocabulary: keys, errors, the account
  snapshot, the rent table and the account cursor.
- Module `Scenarios` instantiates the wrappers. It uses a one-byte
  discriminant encoding, the escrow example's
  `RentExempt<InitOrZeroedAccount<..>>` account, and a 104-byte escrow payload.

Inputs from the host and from collaborators are parameters:

- the rent table: an uninterpreted `nat -> nat` that is not assumed monotone;
- `Rent::get`: a `Sysvars` value that may hold an error;
- the host's verdict on a `create_account` call;
- the inner validators;
- the compressed-number codec;
- `InPlaceCreate::create_with_arg`.

## Model

| member | source | states |
|---|---|---|
| Accounts.NextAccount | src/account_types/init_or_zeroed_account.rs:110 | pulling an account succeeds iff the cursor is non-empty; the account and the rest make up the cursor; an empty cursor gives `NotEnoughAccountKeys` |
| RentExemptAccount.FromAccounts | src/account_types/rent_exempt.rs:74-80 | succeeds iff the inner `from_accounts` does; the wrapped handle and remaining cursor are the inner ones; the inner error is passed through unchanged |
| RentExemptAccount.RentCheck | src/account_types/rent_exempt.rs:124-136 | passes iff `lamports >= minimum_balance(data length)`; otherwise `NotEnoughLamports` with the key, the balance and the needed amount |
| RentExemptAccount.ValidateWith | src/account_types/rent_exempt.rs:122-137 | the inner validator runs first and its error is returned; then the indexer's error; success iff both pass and the indexed account holds at least the minimum balance; on success the handle is the validated inner one |
| RentExemptAccount.ValidateRent | src/account_types/rent_exempt.rs:98-100 | `validate(Rent)` is the full form with `()` as argument and indexer |
| RentExemptAccount.ValidateDefault | src/account_types/rent_exempt.rs:90-92 | `validate(())` fails with the sysvar error when the host rent is unavailable, otherwise equals `validate(Rent)` with the host rent |
| RentExemptAccount.ValidateArg | src/account_types/rent_exempt.rs:106-108 | `validate((T,))`: sysvar error first, otherwise the full form with indexer `()` and the host rent |
| RentExemptAccount.ValidateArgIndexed | src/account_types/rent_exempt.rs:114-116 | `validate((T, I))`: sysvar error first, otherwise the full form with the host rent |
| RentExemptAccount.QueriesForwarded | src/account_types/rent_exempt.rs:139-165 | `is_signer`, `is_writable`, `is_owner` and `info` answer exactly what the inner handle answers |
| RentExemptAccount.Deref | src/account_types/rent_exempt.rs:46-57 | no contract; meaning stated by `RentExemptAccount.FromAccounts` and `RentExemptAccount.QueriesForwarded` (the wrapped handle) |
| RentExemptAccount.IsSigner | src/account_types/rent_exempt.rs:143-146 | no contract; meaning stated by `RentExemptAccount.QueriesForwarded` |
| RentExemptAccount.IsWritable | src/account_types/rent_exempt.rs:148-151 | no contract; meaning stated by `RentExemptAccount.QueriesForwarded` |
| RentExemptAccount.IsOwner | src/account_types/rent_exempt.rs:153-156 | no contract; meaning stated by `RentExemptAccount.QueriesForwarded` |
| RentExemptAccount.Info | src/account_types/rent_exempt.rs:162-165 | no contract; meaning stated by `RentExemptAccount.QueriesForwarded` |
| RentExemptAccount.ArgumentForwarded | src/account_types/rent_exempt.rs:58-84 | `write_back`, `add_keys` and the usage hint are those of the inner argument |
| RentExemptAccount.WriteBack | src/account_types/rent_exempt.rs:62-64 | no contract; meaning stated by `RentExemptAccount.ArgumentForwarded` |
| RentExemptAccount.AddKeys | src/account_types/rent_exempt.rs:66-68 | no contract; meaning stated by `RentExemptAccount.ArgumentForwarded` (the error path of the callback is left out) |
| RentExemptAccount.AccountsUsageHint | src/account_types/rent_exempt.rs:82-84 | no contract; meaning stated by `RentExemptAccount.ArgumentForwarded` |
| RentExemptAccount.InnerFailureShortCircuits | src/account_types/rent_exempt.rs:122-123 | when the inner validator fails, its error is the result whatever the rent table, so no rent check takes place |
| RentExemptAccount.RentCheckReadsBalanceAndLength | src/account_types/rent_exempt.rs:124-127 | two accounts with the same key, balance and data length get the same verdict |
| RentExemptAccount.RentBoundary | src/account_types/rent_exempt.rs:127-136 | a balance equal to the minimum passes; one lamport less fails with `NotEnoughLamports{key, lamports, needed}` |
| RentExemptAccount.HostRentAgreesWithPassedRent | src/account_types/rent_exempt.rs:86-117 | with the host rent available, the `()`, `Rent`, `(T,)` and `(T, I)` forms give the same verdict |
| InitOrZeroedAccount.FromAccounts | src/account_types/init_or_zeroed_account.rs:105-124 | consumes exactly one account (the empty cursor fails); the result is `Zeroed` iff the owner is the program id; the chosen inner `from_accounts` sees only that account, and its result and error are propagated |
| InitOrZeroedAccount.AccountsUsageHint | src/account_types/init_or_zeroed_account.rs:126-128 | the hint admits exactly one account, whatever the initial value |
| InitOrZeroedAccount.Validate | src/account_types/init_or_zeroed_account.rs:135-140 | `Init` is validated with the InitArgs, `Zeroed` with `()`; the result and error are the variant's; the variant is kept |
| InitOrZeroedAccount.ValidateCheckAll | src/account_types/init_or_zeroed_account.rs:147-156 | `Init` gets component 0, `Zeroed` gets `CheckAll`; the result and error are the variant's; the variant is kept |
| InitOrZeroedAccount.DelegatesToVariant | src/account_types/init_or_zeroed_account.rs:55-98 | deref, write-back and key listing are those of the variant held |
| InitOrZeroedAccount.Deref | src/account_types/init_or_zeroed_account.rs:55-68 | no contract; meaning stated by `InitOrZeroedAccount.DelegatesToVariant` |
| InitOrZeroedAccount.WriteBack | src/account_types/init_or_zeroed_account.rs:86-91 | no contract; meaning stated by `InitOrZeroedAccount.DelegatesToVariant` |
| InitOrZeroedAccount.AddKeys | src/account_types/init_or_zeroed_account.rs:93-98 | no contract; meaning stated by `InitOrZeroedAccount.DelegatesToVariant` (the error path of the callback is left out) |
| InitOrZeroedAccount.QueriesIgnoreVariant | src/account_types/init_or_zeroed_account.rs:158-185 | the queries answer from the account info the handle derefs to, identically for `Init` and `Zeroed` |
| InitOrZeroedAccount.IsSigner | src/account_types/init_or_zeroed_account.rs:164-166 | no contract; meaning stated by `InitOrZeroedAccount.QueriesIgnoreVariant` |
| InitOrZeroedAccount.IsWritable | src/account_types/init_or_zeroed_account.rs:168-170 | no contract; meaning stated by `InitOrZeroedAccount.QueriesIgnoreVariant` |
| InitOrZeroedAccount.IsOwner | src/account_types/init_or_zeroed_account.rs:172-174 | no contract; meaning stated by `InitOrZeroedAccount.QueriesIgnoreVariant` |
| InitOrZeroedAccount.Info | src/account_types/init_or_zeroed_account.rs:182-184 | no contract; meaning stated by `InitOrZeroedAccount.QueriesIgnoreVariant` |
| InitOrZeroedAccount.ValidateFormsAgree | src/account_types/init_or_zeroed_account.rs:130-156 | a `Zeroed` handle ignores the InitArgs in both forms; on an `Init` handle the two forms agree |
| InPlaceAccounts.DiscriminantCheck | src/account_types/in_place_account.rs:31-41 | passes iff the decoded leading discriminant is the expected one; a decode error is returned; a mismatch gives `MismatchedDiscriminant{key, received, expected}` |
| InPlaceAccounts.WrittenDiscriminantPasses | src/account_types/in_place_account.rs:31-33 | a buffer that starts with the encoded discriminant passes the check, given the codec round trip |
| InPlaceAccounts.OtherDiscriminantRejected | src/account_types/in_place_account.rs:31-41 | a buffer that starts with another family member's discriminant is rejected, naming both discriminants |
| InPlaceAccounts.InPlaceAccount.Validate | src/account_types/in_place_account.rs:27-42 | `validate(())`: the account-info and phantom validations run first and their errors propagate; success iff both pass and the discriminant decodes to the expected one; otherwise the discriminant check's error |
| InPlaceAccounts.RequiredLamports | src/account_types/in_place_account.rs:76-80 | the minimum balance for the discriminant's bytes plus `space`, from the passed rent or else the host rent, whose error is returned |
| InPlaceAccounts.CollectSeeds | src/account_types/in_place_account.rs:82-88 | at most two seed sets; one per seed set given; the funder's first, the account's last |
| InPlaceAccounts.Prelude | src/account_types/in_place_account.rs:73-80 | no contract; reference for the steps before the owner branch (inner validations, then the rent lookup); its meaning is stated by `InPlaceAccounts.PreludeFailureChangesNothing` and `InPlaceAccounts.SystemAccountGetsOneCreateCall` |
| InPlaceAccounts.BranchSpec | src/account_types/in_place_account.rs:90-120 | no contract; reference for the owner branch (create, adopt or reject); `InPlaceAccounts.InPlaceAccount.OwnerBranch` is proved equal to it, and its cases are stated by `InPlaceAccounts.ForeignOwnerRejected`, `InPlaceAccounts.DirtyAccountNotAdopted`, `InPlaceAccounts.ZeroedAccountAdopted` and `InPlaceAccounts.SystemAccountGetsOneCreateCall` |
| InPlaceAccounts.WriteSpec | src/account_types/in_place_account.rs:122-124 | no contract; reference for the write phase (discriminant through the advancing slice, then the payload); `InPlaceAccounts.InPlaceAccount.WritePhase` is proved equal to it, and its outcome is stated by `InPlaceAccounts.SuccessfulCreateValidates` and `InPlaceAccounts.PayloadFollowsDiscriminant` |
| InPlaceAccounts.CreateSpec | src/account_types/in_place_account.rs:72-127 | no contract; reference for the whole of `validate(Create)`; the imperative methods are proved equal to it, and the lemmas below state what it promises |
| InPlaceAccounts.InPlaceAccount.HasNonZeroPrefix | src/account_types/in_place_account.rs:103-107 | true iff some byte among the first `max_bytes` bytes (or all bytes, if fewer) is non-zero |
| InPlaceAccounts.InPlaceAccount.WriteAll | src/account_types/in_place_account.rs:122-124 | writing through the advancing slice: all bytes written iff they fit, otherwise as many as fit; the buffer afterwards is the old one overwritten from the start position |
| InPlaceAccounts.SystemProgram.CreateAccount | src/account_types/in_place_account.rs:91-101 | logs the call; on the host's success the account gets the new owner, the transferred lamports and a zeroed buffer of the requested size; on failure it is unchanged |
| InPlaceAccounts.InPlaceAccount.OwnerBranch | src/account_types/in_place_account.rs:82-120 | the owner branch: result, account and issued calls are those of the reference branch (create, adopt or reject) |
| InPlaceAccounts.InPlaceAccount.WritePhase | src/account_types/in_place_account.rs:122-126 | writes the discriminant, then the payload `create_with_arg` makes of the rest; result and buffer as in the reference write phase |
| InPlaceAccounts.InPlaceAccount.CreateOrAdopt | src/account_types/in_place_account.rs:72-127 | the whole create-or-adopt algorithm for a given create size: result, account and issued calls equal `CreateSpec` |
| InPlaceAccounts.InPlaceAccount.ValidateCreate | src/account_types/in_place_account.rs:72-127 | `validate(Create)` as written: equals `CreateSpec` with a create size of 0 |
| InPlaceAccounts.InPlaceAccount.ValidateCreateSized | src/account_types/in_place_account.rs:72-127 | `validate(Create)` with the create call sized for the discriminant plus `space`: equals `CreateSpec` with that size |
| InPlaceAccounts.PreludeFailureChangesNothing | src/account_types/in_place_account.rs:73-80 | an inner-validation or rent-lookup error is returned before the owner is looked at; no call is issued and the account is unchanged |
| InPlaceAccounts.ForeignOwnerRejected | src/account_types/in_place_account.rs:113-120 | any other owner gives `AccountOwnerNotEqual` listing `[program id, system program]`; no call is issued and the account is unchanged |
| InPlaceAccounts.DirtyAccountNotAdopted | src/account_types/in_place_account.rs:102-112 | a program-owned account with a non-zero byte among its first `max_bytes` bytes gives `NonZeroedData`; nothing is written |
| InPlaceAccounts.ZeroedAccountAdopted | src/account_types/in_place_account.rs:102-112 | a program-owned account whose leading bytes are zero (over the bytes it has) is adopted without any call, and the write phase runs on it |
| InPlaceAccounts.SystemAccountGetsOneCreateCall | src/account_types/in_place_account.rs:90-101 | a system-owned account gets exactly one create call: from the funder, for the required lamports, owned by the program, with the collected seeds; a host failure is returned and leaves the account unchanged |
| InPlaceAccounts.SuccessfulCreateValidates | src/account_types/in_place_account.rs:122-124 | after success the program owns the account, the buffer starts with the encoded discriminant, and the discriminant check of `validate(())` passes |
| InPlaceAccounts.PayloadFollowsDiscriminant | src/account_types/in_place_account.rs:122-124 | after success the buffer is the encoded discriminant followed by what `create_with_arg` made of the rest of the buffer |
| InPlaceAccounts.CreateWithZeroSpaceFails | src/account_types/in_place_account.rs:90-101 | as written (`space: 0`), creating a system-owned account always fails; when the host accepts the call the error is `WriteZero` |
| InPlaceAccounts.SizedCreateSucceeds | src/account_types/in_place_account.rs:76-126 | with the create call sized for the discriminant plus `space`, a system-owned account that the host creates ends up owned by the program and funded with the required lamports, and it passes the discriminant check |
| Scenarios.CreateEscrowAsWritten | src/account_types/in_place_account.rs:90-124 | creating a 104-byte escrow account through the as-written `validate(Create)` returns `WriteZero` |
| Scenarios.CreateEscrowSized | src/account_types/in_place_account.rs:72-127 | with the sized create call the same creation succeeds; the account holds 1000 + 1 + 104 lamports, and a later `validate(())` accepts it |
| Scenarios.EscrowZeroedValidation | escrow_example/src/lib.rs:91-101 | the escrow's `RentExempt<InitOrZeroedAccount<..>>` validated with `(InitArgs,)` on a zeroed account: the zeroed validation with `()` first, then success iff the account holds the minimum balance for its data length |

## Left out

- The system program's execution of `create_account` is a host call. Its effect (new owner, transferred lamports, zeroed buffer of the requested size) is modelled; the funder's debit, the signer checks and the PDA signature check are not. Whether the call succeeds is a verdict parameter.
- The CPI method (`CPIMethod`) only selects how the host is invoked. It has no bearing on the outcome here and is not modelled.
- `Rent::get` is a parameter that may hold an error. `Rent::minimum_balance` is an uninterpreted function: its floating-point internals are not modelled, and monotonicity is not assumed.
- The compressed-number encoding and Borsh serialisation are an abstract codec. It is required to round-trip and to take one to `max_bytes` bytes. `Scenarios` uses a one-byte instance.
- `InPlaceCreate::create_with_arg` is a parameter. Where the payload layout matters, it is required to keep the length of the slice it is given.
- InitAccount, ZeroedAccount, DiscriminantAccount, PhantomAccount and AccountInfo's own `from_accounts`/`validate`/indexing are not part of this model. They enter as function parameters.
- `AllAny` indexing and the `MultiIndexable` impls are modelled only as forwarding to the account info's own answer for an opaque indexer.
- The state a `&mut self` validator leaves behind after an error is not modelled for the pure wrappers, because the host discards it. For `validate(Create)` the state after an error is modelled for the owner branch and for a discriminant that does not fit (written as far as it fits).
- InPlaceAccounts.WriteSpec: a failing `create_with_arg` is modelled as writing nothing into the slice it was given. The source hands it the mutable slice, and it may write part of it before failing; those partial writes are not captured.
- `RefCell` borrow tracking, and the `verify_account_arg_impl!` and derive macros, are not modelled.
- PDA derivation and seed hashing are not modelled: seed sets are passed through untouched. The two-slot `ShortIter` is a sequence whose length bound is proved.
- Balances are unbounded naturals. The u64 overflow of `lamports + rent` on the system path is not modelled.
- InPlaceAccounts.RequiredLamports: the size `num_bytes() + space` is an unbounded natural; the usize overflow of that sum is not modelled.
- RentExemptAccount.AddKeys, InitOrZeroedAccount.AddKeys: the source's `add_keys` feeds each key to a fallible callback and returns its error; the model returns the key list, so the callback's error path is not captured.
- The escrow example's token-program calls and amount check are business logic outside the wrappers and are not modelled.

## Findings

| source | as written | input that shows it | evidently intended | confidence | as-written member | corrected member |
|---|---|---|---|---|---|---|
| src/account_types/in_place_account.rs:97 | the `create_account` call asks for `space: 0` | a system-owned account, any discriminant (at least one byte), a host that accepts the call: the new account has an empty buffer, the discriminant write fails with `WriteZero`, and the create path can never succeed | allocate the discriminant's bytes plus `arg.space`, the size the rent is computed for at line 80 | high, not executed | InPlaceAccounts.CreateWithZeroSpaceFails | InPlaceAccounts.SizedCreateSucceeds |
