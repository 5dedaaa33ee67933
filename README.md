# Capped token program — Dafny model

A Solana on-chain program that fronts the SPL-Token program. It keeps one
configuration record (`TokenConfig`: a supply cap, an `initialized` flag and
an admin key), persisted with Borsh in a config account, and accepts four
instructions selected by the first byte of the instruction data:

- Transfer, Mint and Burn decode an 8-byte little-endian amount, take their
  accounts, run their checks and ask the SPL-Token program to do the work
  through `invoke`.
- Initialize writes the record once.

Mint is the guarded operation. It runs up to four checks, depending on the
program variant:

- the mint authority signed;
- the config record loads;
- the authority is the record's admin;
- the current supply plus the amount stays within the cap.

The repository holds two variants of the program. `src/lib.rs` has signer
checks on Mint and Burn, a storage-size check in Initialize and three custom
error codes. `src/main.rs` has no signer checks and no storage-size check,
keeps only `MaxSupplyExceeded` of the custom codes, and takes its accounts
before it decodes the amount.

The Dafny project has these modules:

- `Codec`: bytes, `u64`, and the little-endian encoding.
- `Runtime`: the slice of the Solana runtime the program sees.
  - `Pubkey`, `ProgramError` and `CustomError`.
  - A `Result` usable with `:-`, standing in for Rust's `?`.
  - `AccountInfo`, whose data is a mutable `array<byte>`, and its value view `Account`.
  - `next_account_info`.
  - The request the program hands to SPL-Token.
- `Config`: the record, its Borsh codec, and the in-place initialization of
  the config buffer (`InitializeInPlace`).
- `Instruction`: the opcode byte and the Initialize payload.
- `SupplyCap`: the cap comparison and what its `+` does on overflow.
- `LibProgram` and `MainProgram`: the two variants.
- `Variants`: how the two variants relate, an Initialize scenario on a real
  config account buffer, and minting scenarios.

Each handler is a function from the accounts' contents to a
`Result<Effect>`. An `Effect` is either the delegated SPL-Token request or
the record to be stored. An error means the runtime rolls back the request:
nothing is delegated and nothing is stored.

`ProcessInstruction` and `ProcessInitialize` are the handlers run on the
accounts themselves. They are methods that may write only the first
account's buffer. Each is proved to return what the function gives on the
state before the call, and to change nothing unless an Initialize succeeds;
a successful Initialize writes exactly the serialized new record.

Modelling decisions:

- **Borsh `try_from_slice`.** `TokenConfig::try_from_slice` reads the
  fields in order and fails unless every byte was consumed. A bool byte
  other than 0 or 1 is rejected. So a record loads exactly when the data is
  41 bytes long and byte 8 is 0 or 1 (`Config.Deserialize`). A config
  account of any other size is therefore `InvalidAccountData`.
- **Overflow.** The cap check uses Rust's plain `+` on `u64`. Its overflow
  behaviour depends on the build, which the sources do not show. The model
  takes it as a parameter (`SupplyCap.AddSemantics`):
  - `OverflowPanics`: the request aborts (`Panic`);
  - `OverflowWraps`: the sum wraps modulo 2^64;
  - `CheckedAdd`: the intended behaviour, where an overflow counts as
    exceeding the cap.
- **`Mint::unpack`.** The mint account's supply, error included, is an input
  (`supply: Result<u64>`).
- **`spl_token::instruction` builders.** They always succeed, and `invoke`
  is simply the request emitted. The request records the key of the account
  given as the token program, then the builder's arguments.
- **Code over intent.** The program's intended design asks for a signature
  from the Transfer authority, an Initialize payload of exactly 40 bytes, a
  checked addition in the cap check, and the custom error codes in both
  variants. The model follows the code where it differs:
  - Transfer in `src/lib.rs` checks no signature.
  - Initialize accepts a longer payload and ignores the bytes after the 40th.
  - The cap check is a plain `+`, not a checked addition.
  - `src/main.rs` reports a wrong admin as `MissingRequiredSignature`, and
    bad or zero amounts as `InvalidInstructionData`.

## Model

| member | source | states |
|---|---|---|
| Codec.U64FromLe | src/lib.rs:43 | `u64::from_le_bytes` of a slice succeeds exactly on 8 bytes, gives their little-endian value, and re-encoding that value gives the same bytes |
| Codec.U64ToLe | src/lib.rs:19-24 | the 8-byte little-endian encoding of a u64, which decodes back to it |
| Codec.LeValueOfBytes | src/lib.rs:43 | little-endian decoding inverts encoding for every value below 256^width |
| Codec.LeBytesOfValue | src/lib.rs:43 | encoding the decoded value of any byte string gives that string back |
| Runtime.CustomError.Code | src/lib.rs:26-30 | the custom codes: MaxSupplyExceeded 1, UnauthorizedMint 2, InvalidAmount 3 |
| Runtime.CustomError.Into | src/lib.rs:32-36 | `into()` gives a `ProgramError::Custom` carrying the code |
| Runtime.NextAccountInfo | src/lib.rs:80-81 | the next account and the rest, or `NotEnoughAccountKeys` exactly when none is left |
| Runtime.NextAccounts | src/lib.rs:112-116 | n successive `next_account_info` calls succeed exactly when there are n accounts, yield the first n in order, else `NotEnoughAccountKeys` |
| Config.Serialize | src/lib.rs:19-24 | the Borsh record is always 41 bytes |
| Config.DefaultConfig | src/lib.rs:84 | `TokenConfig::default()` is not initialized, and its serialization is a 41-byte record that loads back as itself |
| Config.Deserialize | src/lib.rs:89 | `try_from_slice` accepts exactly the 41-byte strings whose bool byte is 0 or 1, and a record that loads re-serializes to the very bytes it was read from |
| Config.DeserializeSerialize | src/lib.rs:19-24 | reading back a serialized record gives the same three fields |
| Config.LoadConfig | src/lib.rs:147 | Ok exactly when the bytes are a record, then that record; otherwise `InvalidAccountData` |
| Config.InitializeRecord | src/lib.rs:89-97 | Ok exactly on an uninitialized record, and then `(max_supply, true, admin)`; `InvalidAccountData` when no record loads; `AccountAlreadyInitialized` when it is already initialized |
| Config.InitializeRecordOnce | src/lib.rs:91-93 | the record written by a successful initialization refuses any further one with `AccountAlreadyInitialized` |
| Config.WriteBytes | src/lib.rs:99 | serializing into the buffer overwrites its front with the bytes and keeps the rest |
| Config.InitializeInPlace | src/lib.rs:88-99 | on the config buffer: the result of InitializeRecord on its old contents; on success the buffer holds exactly the serialized new record; on error it is unchanged |
| Instruction.DecodeInstruction | src/lib.rs:60-69 | Ok exactly for a nonempty buffer whose first byte is 0..3, giving that opcode and the rest; otherwise `InvalidInstructionData` |
| Instruction.DecodeEncoded | src/lib.rs:63-67 | each opcode's byte, followed by any payload, decodes to that opcode and payload |
| Instruction.ParseInitialize | src/lib.rs:73-78 | Ok exactly for payloads of 40 bytes or more, then admin = bytes 0..32 and max_supply = the LE value of bytes 32..40; otherwise `InvalidInstructionData` |
| Instruction.ParseInitializeEncoded | src/lib.rs:73-78 | an encoded key and cap parse back to themselves whatever bytes follow |
| Instruction.DecodeAmountInstruction | src/lib.rs:60-66 | an encoded Transfer, Mint or Burn decodes to its opcode and the amount's 8 bytes |
| Instruction.DecodeInitializeInstruction | src/main.rs:48-60 | an encoded Initialize decodes to its opcode and a payload that parses back to its key and cap |
| SupplyCap.CapExceeded | src/lib.rs:157-160 | without overflow, refuse exactly when current + amount > max (equality allowed); on overflow: a panic or a wrapped comparison per build, or a refusal under the intended checked addition |
| SupplyCap.WrappingPassesOverCap | src/lib.rs:157 | with wrapping addition, a sum past the cap passes the check |
| LibProgram.DecodeAmount | src/lib.rs:39-44 | Ok exactly for 8 bytes, with their LE value; otherwise `Custom(3)` |
| LibProgram.DecodeAmountEncoded | src/lib.rs:39-44 | decoding the encoding of any u64 returns it |
| LibProgram.CheckSigner | src/lib.rs:47-53 | succeeds exactly when the account signed, else `MissingRequiredSignature` |
| LibProgram.ProcessTransfer | src/lib.rs:105-131 | a success only ever delegates a transfer |
| LibProgram.ProcessMint | src/lib.rs:133-174 | a success only ever delegates a mint |
| LibProgram.ProcessBurn | src/lib.rs:176-200 | a success only ever delegates a burn |
| LibProgram.Initialize | src/lib.rs:72-103 | a success only ever stores a record |
| LibProgram.ProcessInitialize | src/lib.rs:72-103 | run on the accounts: the result of Initialize on their old contents; on success the config buffer holds the serialized new record, on error it is unchanged |
| LibProgram.ProcessInstruction | src/lib.rs:55-70 | run on the accounts: the result of Process on their old contents; only a stored record changes the first buffer, to exactly that record |
| LibProgram.Process | src/lib.rs:55-70 | an empty buffer or an opcode above 3 is `InvalidInstructionData`; a success needs an opcode 0..3, and stores a record exactly when the opcode is Initialize |
| LibProgram.RejectsUnknownInstruction | src/lib.rs:60-69 | an empty buffer or an opcode above 3 is `InvalidInstructionData` |
| LibProgram.TransferAmountFirst | src/lib.rs:106-110 | a payload that is not 8 bytes, or encodes 0, is `Custom(3)` whatever the accounts |
| LibProgram.TransferDelegates | src/lib.rs:112-129 | a nonzero amount with four accounts delegates exactly that transfer, signed or not; fewer accounts is `NotEnoughAccountKeys` |
| LibProgram.MintUnsignedRejected | src/lib.rs:144 | an unsigned authority is `MissingRequiredSignature` whatever the config data |
| LibProgram.MintRejects | src/lib.rs:134-154 | a non-8-byte amount is `Custom(3)`; fewer than five accounts `NotEnoughAccountKeys`; for a signed authority, config data that is not a record `InvalidAccountData`; for the signed admin, a failed `Mint::unpack` its own error |
| LibProgram.MintWrongAdminRejected | src/lib.rs:149-152 | a signed authority that is not the admin is `Custom(2)` whatever the supply |
| LibProgram.MintCap | src/lib.rs:157-172 | for the signed admin, in every build when the sum does not overflow (and on overflow in the panicking build and under the checked addition): a sum at or below the cap delegates exactly the mint; above it is `Custom(1)`, or a panic on overflow with overflow checks on |
| LibProgram.MintCapWrapping | src/lib.rs:157-172 | for the signed admin in the wrapping build, any sum: the wrapped sum above the cap is `Custom(1)`, otherwise exactly the mint is delegated |
| LibProgram.MintAccepted | src/lib.rs:133-174 | a mint is delegated if and only if every check passes, and then it is exactly the mint of the decoded amount |
| LibProgram.MintRespectsCap | src/lib.rs:144-172 | unless the sum wraps, every delegated mint was signed by the admin and keeps supply + amount within the cap |
| LibProgram.MintIgnoresInitialized | src/lib.rs:147-157 | records differing only in the `initialized` flag give the same Mint result |
| LibProgram.MintWrapsPastCap | src/lib.rs:157-160 | as written with wrapping addition, the admin gets 2^64 − 1000 minted at supply 1000 under a cap of 1000 |
| LibProgram.BurnChecksSigner | src/lib.rs:176-198 | an unsigned authority is `MissingRequiredSignature`; a signed one delegates exactly the burn, zero included |
| LibProgram.BurnRejects | src/lib.rs:177-183 | a non-8-byte amount is `Custom(3)` whatever the accounts; then fewer than four accounts is `NotEnoughAccountKeys` |
| LibProgram.InitializeRejects | src/lib.rs:73-93 | in order: a payload under 40 bytes is `InvalidInstructionData`; no account `NotEnoughAccountKeys`; storage under 41 bytes, or data that is not a record (another length, or a bool byte above 1), `InvalidAccountData`; an initialized record `AccountAlreadyInitialized` |
| LibProgram.InitializeStores | src/lib.rs:77-99 | on an uninitialized record, stores the key from bytes 0..32 and the cap from bytes 32..40 with the flag set, and the stored bytes read back as that record |
| LibProgram.InitializeOnce | src/lib.rs:91-99 | after a successful Initialize has been written, every further Initialize fails, so the admin and cap stay as set |
| LibProgram.ProcessEncodedAmount | src/lib.rs:63-66 | an encoded Transfer, Mint or Burn reaches its handler with the amount's 8 bytes |
| LibProgram.ProcessEncodedInitialize | src/lib.rs:67 | an encoded Initialize reaches process_initialize with the key and the cap's 8 bytes |
| LibProgram.ProcessEncodedInitializeStores | src/lib.rs:72-99 | on an uninitialized record, an encoded Initialize stores exactly its key and cap |
| MainProgram.DecodeAmount | src/main.rs:99 | Ok exactly for 8 bytes, with their LE value; otherwise `InvalidInstructionData` |
| MainProgram.DecodeAmountEncoded | src/main.rs:126 | decoding the encoding of any u64 returns it |
| MainProgram.ProcessTransfer | src/main.rs:92-116 | a success only ever delegates a transfer |
| MainProgram.ProcessMint | src/main.rs:118-156 | a success only ever delegates a mint |
| MainProgram.ProcessBurn | src/main.rs:158-179 | a success only ever delegates a burn |
| MainProgram.Initialize | src/main.rs:66-90 | a success only ever stores a record |
| MainProgram.ProcessInitialize | src/main.rs:66-90 | run on the accounts: the result of Initialize on their old contents; on success the config buffer holds the serialized new record, on error it is unchanged |
| MainProgram.ProcessInstruction | src/main.rs:36-64 | run on the accounts: the result of Process on their old contents; only a stored record changes the first buffer, to exactly that record |
| MainProgram.Process | src/main.rs:36-64 | an empty buffer or an opcode above 3 is `InvalidInstructionData`; a success needs an opcode 0..3, and stores a record exactly when the opcode is Initialize |
| MainProgram.RejectsUnknownInstruction | src/main.rs:41-62 | an empty buffer or an opcode above 3 is `InvalidInstructionData` |
| MainProgram.TransferChecks | src/main.rs:93-114 | fewer than four accounts is `NotEnoughAccountKeys` even for a bad amount; then a non-8-byte or zero amount is `InvalidInstructionData`; otherwise exactly the transfer |
| MainProgram.MintAccepted | src/main.rs:118-156 | a mint is delegated if and only if the record loads, the authority key is the admin's, the supply unpacks and the cap holds (no signature needed), and then it is exactly the mint of the decoded amount |
| MainProgram.MintRejects | src/main.rs:119-136 | fewer than five accounts is `NotEnoughAccountKeys` whatever the amount; then a non-8-byte amount `InvalidInstructionData`; config data that is not a record `InvalidAccountData`; for the admin's key, a failed `Mint::unpack` its own error |
| MainProgram.MintWrongAdminRejected | src/main.rs:131-134 | an authority that is not the admin is `MissingRequiredSignature` whatever the supply |
| MainProgram.MintCap | src/main.rs:139-154 | for the admin's key, in every build when the sum does not overflow (and on overflow in the panicking build and under the checked addition): a sum at or below the cap delegates exactly the mint; above it is `Custom(1)`, or a panic on overflow with overflow checks on |
| MainProgram.MintCapWrapping | src/main.rs:139-154 | for the admin's key in the wrapping build, any sum: the wrapped sum above the cap is `Custom(1)`, otherwise exactly the mint is delegated |
| MainProgram.MintRespectsCap | src/main.rs:131-154 | unless the sum wraps, every delegated mint names the admin and keeps supply + amount within the cap |
| MainProgram.MintIgnoresInitialized | src/main.rs:129-139 | records differing only in the `initialized` flag give the same Mint result |
| MainProgram.MintWrapsPastCap | src/main.rs:139-142 | as written with wrapping addition, the admin gets 2^64 − 1000 minted at supply 1000 under a cap of 1000 |
| MainProgram.BurnDelegates | src/main.rs:158-177 | no signer or amount check: four accounts and 8 bytes delegate exactly that burn, zero included |
| MainProgram.InitializeParsed | src/main.rs:48-60 | a payload under 40 bytes is `InvalidInstructionData`; otherwise the key is bytes 0..32 and the cap the LE value of bytes 32..40, later bytes ignored |
| MainProgram.InitializeChecks | src/main.rs:71-85 | no storage-size check: no account, data that is not a record, and an initialized record are refused; otherwise `(max_supply, true, admin)` is stored |
| MainProgram.InitializeOnce | src/main.rs:77-85 | after a successful Initialize has been written, every further Initialize is `AccountAlreadyInitialized` |
| MainProgram.ProcessEncodedAmount | src/main.rs:44-47 | an encoded Transfer, Mint or Burn reaches its handler with the amount's 8 bytes |
| MainProgram.ProcessEncodedInitialize | src/main.rs:48-60 | an encoded Initialize reaches process_initialize with the key and cap it carries |
| Variants.LibAcceptedByMain | src/main.rs:36-64 | every instruction `src/lib.rs` carries out, `src/main.rs` carries out with the same effect |
| Variants.InitializeAgrees | src/lib.rs:84-86 | the storage-size check never changes the outcome: both variants agree on every Initialize |
| Variants.MainMintsUnsigned | src/main.rs:118-134 | the admin's key without a signature: `src/lib.rs` refuses, `src/main.rs` delegates the mint |
| Variants.LibInitializeTwice | src/lib.rs:88-99 | on a config buffer: Initialize(A, 1000) then Initialize with any key and cap leaves the buffer reading `(1000, true, A)` |
| Variants.MintScenario | src/lib.rs:157-172 | in both variants, with cap 1000, the admin mints 1000 at supply 0 and one more at supply 1000 is `Custom(1)` |
| Variants.IntruderScenario | src/main.rs:131-134 | a signer other than the admin is refused in both variants: `Custom(2)` and `MissingRequiredSignature` |

## Left out

- `msg!` logging: output only, with no effect on results.
- SPL-Token's execution of the delegated transfer, mint and burn: balances, ownership and the token program's own checks belong to another program. The model stops at the request handed to `invoke`, and an `invoke` failure is not modelled.
- `Mint::unpack` and the SPL-Token mint layout: the current supply, or the unpack error, is an input.
- The `spl_token::instruction` builders: taken to always succeed, because their only failure depends on program-id checks in a library that is not part of this model.
- `try_borrow_data` and `try_borrow_mut_data` borrow failures: taken to succeed, as they concern runtime aliasing rather than the program's logic.
- The `entrypoint!` macro, the unused `program_id`, and the runtime's own account checks before the program runs.
- Signature cryptography: only the `is_signer` flag is modelled.
- The handlers' account iterator: Transfer, Mint and Burn take their accounts through `Runtime.NextAccounts`, a function equal to the successive `next_account_info` calls. Only `process_initialize` steps an iterator variable.
- Config.WriteBytes: does not model Borsh's write error on a buffer shorter than the record. Its one caller has already read exactly 41 bytes from the same buffer, so that error cannot arise there.
- LibProgram.ProcessTransfer, LibProgram.ProcessMint, LibProgram.ProcessBurn, LibProgram.Initialize and their MainProgram counterparts: each function's own contract says only which kind of effect a success yields. The lemmas beside them state the exact request and every error case.

## Findings

| source | as written | input that shows it | evidently intended | confidence | as-written member | corrected member |
|---|---|---|---|---|---|---|
| src/lib.rs:157 | `current_supply + amount > max_supply` with plain `u64` addition; in a build without overflow checks (Cargo's release default) the sum wraps | cap 1000, current supply 1000, amount 2^64 − 1000: the sum wraps to 0 and the mint is delegated | a mint whose true total exceeds the cap is refused (`checked_add`, overflow counting as exceeding) | not executed; applies only to builds without overflow checks. The supply is read from the mint account that the delegated `mint_to` names, so the sum wraps exactly when SPL-Token's own supply addition, which is not part of this model, would overflow too; the defect is that this program's cap guard passes a request it should refuse | LibProgram.MintWrapsPastCap | LibProgram.MintRespectsCap |
| src/main.rs:139 | the same plain `u64` addition in the `src/main.rs` cap check | the same input, with the admin's key as authority | the same | not executed; applies only to builds without overflow checks, and as for src/lib.rs the wrap coincides with an overflow of SPL-Token's own supply addition | MainProgram.MintWrapsPastCap | MainProgram.MintRespectsCap |
