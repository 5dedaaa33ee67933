/** The `src/lib.rs` variant of the program: signer checks on Mint and Burn,
    a storage-size check in Initialize, and `CustomError` codes for amounts
    and unauthorized mints. */
module LibProgram {
  import opened Codec
  import opened Runtime
  import opened Config
  import opened Instruction
  import opened SupplyCap

  /** `decode_amount`: exactly eight bytes, read little-endian; any other
      length is `Custom(3)` (InvalidAmount). */
  function DecodeAmount(data: seq<byte>): (r: Result<u64>)
    ensures r.Ok? <==> |data| == 8
    ensures r.Ok? ==> r.value == LeValue(data) && U64ToLe(r.value) == data
    ensures r.Err? ==> r.error == InvalidAmount.Into()
  {
    if |data| != 8 then Err(InvalidAmount.Into())
    else
      var amount := U64FromLe(data);
      Ok(amount.value)
  }

  /** Decoding the encoding of any u64 gives it back. */
  lemma {:induction false} DecodeAmountEncoded(n: u64)
    ensures DecodeAmount(U64ToLe(n)) == Ok(n)
  {
    LeBytesOfValue(U64ToLe(n));
  }

  /** `check_signer`. */
  function CheckSigner(account: Account): (r: ProgramResult)
    ensures r.Success? <==> account.isSigner
    ensures r.Failure? ==> r.error == MissingRequiredSignature
  {
    if !account.isSigner then Failure(MissingRequiredSignature) else Success
  }

  /** `process_transfer`: the amount is decoded and checked before any account
      is read; then four accounts are taken (source, destination, authority,
      token program) and a transfer is delegated. No signature is checked here. */
  function ProcessTransfer(accounts: seq<Account>, payload: seq<byte>): (r: Result<Effect>)
    ensures r.Ok? ==> r.value.Delegate? && r.value.request.TransferReq?
  {
    var amount :- DecodeAmount(payload);
    if amount == 0 then Err(InvalidAmount.Into())
    else
      var taken :- NextAccounts(accounts, 4);
      var fromAccount, toAccount, authority, tokenProgram := taken.0[0], taken.0[1], taken.0[2], taken.0[3];
      Ok(Delegate(TransferReq(tokenProgram.key, fromAccount.key, toAccount.key, authority.key, amount)))
  }

  /** `process_mint`: decode the amount, take five accounts (mint, destination,
      mint authority, token program, config), then in order: the authority
      signed, the config record loads, the authority is its admin, the mint's
      supply unpacks, and `current_supply + amount` does not exceed the cap.
      `supply` stands for `Mint::unpack(...)` of the mint account, its error
      included. */
  function ProcessMint(accounts: seq<Account>, payload: seq<byte>, supply: Result<u64>, sem: AddSemantics)
    : (r: Result<Effect>)
    ensures r.Ok? ==> r.value.Delegate? && r.value.request.MintReq?
  {
    var amount :- DecodeAmount(payload);
    var taken :- NextAccounts(accounts, 5);
    var mint, destination, mintAuthority, tokenProgram, configAccount :=
      taken.0[0], taken.0[1], taken.0[2], taken.0[3], taken.0[4];
    :- CheckSigner(mintAuthority);
    var tokenConfig :- LoadConfig(configAccount.data);
    if mintAuthority.key != tokenConfig.adminPubkey then Err(UnauthorizedMint.Into())
    else
      var currentSupply :- supply;
      var exceeds :- CapExceeded(currentSupply, amount, tokenConfig.maxSupply, sem);
      if exceeds then Err(MaxSupplyExceeded.Into())
      else Ok(Delegate(MintReq(tokenProgram.key, mint.key, destination.key, mintAuthority.key, amount)))
  }

  /** `process_burn`: decode the amount (zero is allowed), take four accounts
      (source, mint, burn authority, token program), check that the authority
      signed and delegate a burn. */
  function ProcessBurn(accounts: seq<Account>, payload: seq<byte>): (r: Result<Effect>)
    ensures r.Ok? ==> r.value.Delegate? && r.value.request.BurnReq?
  {
    var amount :- DecodeAmount(payload);
    var taken :- NextAccounts(accounts, 4);
    var burnAccount, mint, burnAuthority, tokenProgram := taken.0[0], taken.0[1], taken.0[2], taken.0[3];
    :- CheckSigner(burnAuthority);
    Ok(Delegate(BurnReq(tokenProgram.key, burnAccount.key, mint.key, burnAuthority.key, amount)))
  }

  /** `process_initialize` on the accounts' contents: parse the payload, take
      the config account, refuse storage smaller than a serialized default
      record, then initialize the stored record. Ok carries the record to be
      written back into the config account. */
  function Initialize(accounts: seq<Account>, payload: seq<byte>): (r: Result<Effect>)
    ensures r.Ok? ==> r.value.StoreConfig?
  {
    var args :- ParseInitialize(payload);
    var first :- NextAccountInfo(accounts);
    var configAccount := first.0;
    if |configAccount.data| < |Serialize(DefaultConfig())| then Err(InvalidAccountData)
    else
      var tokenConfig :- InitializeRecord(configAccount.data, args.admin, args.maxSupply);
      Ok(StoreConfig(tokenConfig))
  }

  /** `process_instruction` on the accounts' contents. */
  function Process(accounts: seq<Account>, data: seq<byte>, supply: Result<u64>, sem: AddSemantics)
    : (r: Result<Effect>)
    ensures |data| == 0 || data[0] > 3 ==> r == Err(InvalidInstructionData)
    ensures r.Ok? ==> |data| > 0 && data[0] < 4
    ensures r.Ok? ==> (r.value.StoreConfig? <==> data[0] == OpcodeByte(Opcode.Initialize))
  {
    var (instruction, restOfData) :- DecodeInstruction(data);
    match instruction
    case Transfer => ProcessTransfer(accounts, restOfData)
    case Mint => ProcessMint(accounts, restOfData, supply, sem)
    case Burn => ProcessBurn(accounts, restOfData)
    case Initialize => Initialize(accounts, restOfData)
  }

  /** `process_initialize`, run on the accounts themselves: it writes the new
      record into the config account's buffer and changes nothing on failure. */
  method ProcessInitialize(accounts: seq<AccountInfo>, restOfData: seq<byte>) returns (r: Result<Effect>)
    modifies if |accounts| > 0 then {accounts[0].data} else {}
    ensures r == old(Initialize(Snapshot(accounts), restOfData))
    ensures r.Ok? ==> |accounts| > 0 && accounts[0].data[..] == Serialize(r.value.config)
    ensures r.Err? && |accounts| > 0 ==> accounts[0].data[..] == old(accounts[0].data[..])
  {
    var args :- ParseInitialize(restOfData);
    var accountInfoIter := accounts;
    var next :- NextAccountInfo(accountInfoIter);
    var configAccount := next.0;
    accountInfoIter := next.1;
    if configAccount.data.Length < |Serialize(DefaultConfig())| {
      return Err(InvalidAccountData);
    }
    var tokenConfig :- InitializeInPlace(configAccount.data, args.admin, args.maxSupply);
    r := Ok(StoreConfig(tokenConfig));
  }

  /** `process_instruction`, run on the accounts themselves. Its result is that
      of Process on the accounts' contents before the call; only a successful
      Initialize changes anything, and then only the first account's data. */
  method ProcessInstruction(accounts: seq<AccountInfo>, instructionData: seq<byte>,
                            supply: Result<u64>, sem: AddSemantics)
    returns (r: Result<Effect>)
    modifies if |accounts| > 0 then {accounts[0].data} else {}
    ensures r == old(Process(Snapshot(accounts), instructionData, supply, sem))
    ensures r.Ok? && r.value.StoreConfig? ==>
      |accounts| > 0 && accounts[0].data[..] == Serialize(r.value.config)
    ensures !(r.Ok? && r.value.StoreConfig?) && |accounts| > 0 ==>
      accounts[0].data[..] == old(accounts[0].data[..])
  {
    var decoded :- DecodeInstruction(instructionData);
    var (instruction, restOfData) := decoded;
    match instruction {
      case Transfer => r := ProcessTransfer(Snapshot(accounts), restOfData);
      case Mint => r := ProcessMint(Snapshot(accounts), restOfData, supply, sem);
      case Burn => r := ProcessBurn(Snapshot(accounts), restOfData);
      case Initialize => r := ProcessInitialize(accounts, restOfData);
    }
  }

  // ---------------------------------------------------------------------
  // Properties

  /** An empty instruction, or one whose first byte is not an opcode, is
      `InvalidInstructionData`, and so stores nothing and delegates nothing. */
  lemma RejectsUnknownInstruction(accounts: seq<Account>, data: seq<byte>, supply: Result<u64>, sem: AddSemantics)
    requires |data| == 0 || data[0] > 3
    ensures Process(accounts, data, supply, sem) == Err(InvalidInstructionData)
  {
  }

  /** Transfer checks its amount before it looks at any account: a payload that
      is not eight bytes, or encodes zero, is `Custom(3)` whatever the accounts. */
  lemma TransferAmountFirst(accounts: seq<Account>, payload: seq<byte>)
    requires |payload| != 8 || LeValue(payload) == 0
    ensures ProcessTransfer(accounts, payload) == Err(InvalidAmount.Into())
  {
  }

  /** A nonzero amount with four accounts delegates exactly a transfer of that
      amount from the first account to the second by the third, whether or not
      the third signed; with fewer accounts it is `NotEnoughAccountKeys`. */
  lemma TransferDelegates(accounts: seq<Account>, amount: u64)
    requires amount > 0
    ensures |accounts| < 4 ==> ProcessTransfer(accounts, U64ToLe(amount)) == Err(NotEnoughAccountKeys)
    ensures |accounts| >= 4 ==>
      ProcessTransfer(accounts, U64ToLe(amount)) ==
      Ok(Delegate(TransferReq(accounts[3].key, accounts[0].key, accounts[1].key, accounts[2].key, amount)))
  {
    DecodeAmountEncoded(amount);
  }

  /** An unsigned mint authority is refused before the config account is read:
      the result does not depend on the config data. */
  lemma MintUnsignedRejected(accounts: seq<Account>, amount: u64, supply: Result<u64>, sem: AddSemantics)
    requires |accounts| >= 5 && !accounts[2].isSigner
    ensures ProcessMint(accounts, U64ToLe(amount), supply, sem) == Err(MissingRequiredSignature)
  {
    DecodeAmountEncoded(amount);
  }

  /** The other ways Mint fails, each before any later check: an amount that
      is not eight bytes is `Custom(3)`; fewer than five accounts is
      `NotEnoughAccountKeys`; for a signed authority, config data that is not a
      record is `InvalidAccountData`; for the signed admin, a mint account
      that does not unpack fails with the unpack error. */
  lemma MintRejects(accounts: seq<Account>, payload: seq<byte>, supply: Result<u64>, sem: AddSemantics)
    ensures |payload| != 8 ==> ProcessMint(accounts, payload, supply, sem) == Err(InvalidAmount.Into())
    ensures |payload| == 8 && |accounts| < 5 ==> ProcessMint(accounts, payload, supply, sem) == Err(NotEnoughAccountKeys)
    ensures |payload| == 8 && |accounts| >= 5 && accounts[2].isSigner && Deserialize(accounts[4].data).None? ==>
      ProcessMint(accounts, payload, supply, sem) == Err(InvalidAccountData)
    ensures |payload| == 8 && |accounts| >= 5 && accounts[2].isSigner && Deserialize(accounts[4].data).Some?
            && accounts[2].key == Deserialize(accounts[4].data).value.adminPubkey && supply.Err? ==>
      ProcessMint(accounts, payload, supply, sem) == Err(supply.error)
  {
  }

  /** A signed authority whose key is not the record's admin is `Custom(2)`,
      whatever the supply. */
  lemma MintWrongAdminRejected(accounts: seq<Account>, amount: u64, supply: Result<u64>, sem: AddSemantics,
                               c: TokenConfig)
    requires |accounts| >= 5 && accounts[2].isSigner
    requires Deserialize(accounts[4].data) == Some(c) && accounts[2].key != c.adminPubkey
    ensures ProcessMint(accounts, U64ToLe(amount), supply, sem) == Err(UnauthorizedMint.Into())
  {
    DecodeAmountEncoded(amount);
  }

  /** Once the admin has signed, the cap decides: a sum above the cap is
      `Custom(1)` (or a panic on overflow with overflow checks on), a sum equal
      to or below it mints exactly `amount` to the second account. This holds
      in every build as long as the sum does not overflow. */
  lemma MintCap(accounts: seq<Account>, amount: u64, current: u64, sem: AddSemantics, c: TokenConfig)
    requires |accounts| >= 5 && accounts[2].isSigner
    requires Deserialize(accounts[4].data) == Some(c) && accounts[2].key == c.adminPubkey
    requires sem != OverflowWraps || current + amount < U64_LIMIT
    ensures current + amount <= c.maxSupply ==>
      ProcessMint(accounts, U64ToLe(amount), Ok(current), sem) ==
      Ok(Delegate(MintReq(accounts[3].key, accounts[0].key, accounts[1].key, accounts[2].key, amount)))
    ensures current + amount > c.maxSupply ==>
      ProcessMint(accounts, U64ToLe(amount), Ok(current), sem) ==
      if current + amount >= U64_LIMIT && sem == OverflowPanics then Err(Panic) else Err(MaxSupplyExceeded.Into())
  {
    DecodeAmountEncoded(amount);
  }

  /** With wrapping addition and any sum, overflowing or not, the wrapped sum
      decides: above the cap is `Custom(1)`, otherwise exactly the mint is
      delegated. */
  lemma MintCapWrapping(accounts: seq<Account>, amount: u64, current: u64, c: TokenConfig)
    requires |accounts| >= 5 && accounts[2].isSigner
    requires Deserialize(accounts[4].data) == Some(c) && accounts[2].key == c.adminPubkey
    ensures ProcessMint(accounts, U64ToLe(amount), Ok(current), OverflowWraps) ==
      if (current + amount) % U64_LIMIT > c.maxSupply then Err(MaxSupplyExceeded.Into())
      else Ok(Delegate(MintReq(accounts[3].key, accounts[0].key, accounts[1].key, accounts[2].key, amount)))
  {
    DecodeAmountEncoded(amount);
  }

  /** A mint is delegated exactly when every check passes, and it is then the
      one request for the decoded amount. */
  lemma MintAccepted(accounts: seq<Account>, payload: seq<byte>, supply: Result<u64>, sem: AddSemantics)
    ensures ProcessMint(accounts, payload, supply, sem).Ok? <==>
      && |payload| == 8 && |accounts| >= 5 && accounts[2].isSigner
      && Deserialize(accounts[4].data).Some?
      && accounts[2].key == Deserialize(accounts[4].data).value.adminPubkey
      && supply.Ok?
      && CapExceeded(supply.value, LeValue(payload), Deserialize(accounts[4].data).value.maxSupply, sem) == Ok(false)
    ensures ProcessMint(accounts, payload, supply, sem).Ok? ==>
      ProcessMint(accounts, payload, supply, sem) ==
      Ok(Delegate(MintReq(accounts[3].key, accounts[0].key, accounts[1].key, accounts[2].key, LeValue(payload))))
  {
  }

  /** Unless the sum wraps, every delegated mint was signed by the record's
      admin and keeps the supply within the record's cap. */
  lemma MintRespectsCap(accounts: seq<Account>, data: seq<byte>, supply: Result<u64>, sem: AddSemantics)
    requires sem != OverflowWraps
    requires Process(accounts, data, supply, sem).Ok?
    requires Process(accounts, data, supply, sem).value.Delegate?
    requires Process(accounts, data, supply, sem).value.request.MintReq?
    ensures |accounts| >= 5 && accounts[2].isSigner && Deserialize(accounts[4].data).Some? && supply.Ok?
    ensures var c := Deserialize(accounts[4].data).value;
            var req := Process(accounts, data, supply, sem).value.request;
            req.authority == c.adminPubkey && supply.value + req.amount <= c.maxSupply
  {
    MintAccepted(accounts, data[1..], supply, sem);
  }

  /** Mint never reads the `initialized` flag: records that differ only in it
      give the same result. */
  lemma MintIgnoresInitialized(accounts: seq<Account>, payload: seq<byte>, supply: Result<u64>,
                               sem: AddSemantics, c: TokenConfig)
    requires |accounts| >= 5
    ensures var flip := c.(initialized := !c.initialized);
      ProcessMint(accounts[4 := accounts[4].(data := Serialize(c))], payload, supply, sem) ==
      ProcessMint(accounts[4 := accounts[4].(data := Serialize(flip))], payload, supply, sem)
  {
    DeserializeSerialize(c);
    DeserializeSerialize(c.(initialized := !c.initialized));
  }

  /** An unsigned burn authority is refused and no burn is delegated; a signed
      one delegates a burn of any amount, zero included. */
  lemma BurnChecksSigner(accounts: seq<Account>, amount: u64)
    requires |accounts| >= 4
    ensures !accounts[2].isSigner ==> ProcessBurn(accounts, U64ToLe(amount)) == Err(MissingRequiredSignature)
    ensures accounts[2].isSigner ==>
      ProcessBurn(accounts, U64ToLe(amount)) ==
      Ok(Delegate(BurnReq(accounts[3].key, accounts[0].key, accounts[1].key, accounts[2].key, amount)))
  {
    DecodeAmountEncoded(amount);
  }

  /** Burn fails on an amount that is not eight bytes with `Custom(3)`, before
      the accounts are taken, and then on fewer than four accounts with
      `NotEnoughAccountKeys`. */
  lemma BurnRejects(accounts: seq<Account>, payload: seq<byte>)
    ensures |payload| != 8 ==> ProcessBurn(accounts, payload) == Err(InvalidAmount.Into())
    ensures |payload| == 8 && |accounts| < 4 ==> ProcessBurn(accounts, payload) == Err(NotEnoughAccountKeys)
  {
  }

  /** Initialize refuses, in this order: a payload shorter than 40 bytes, no
      account, storage shorter than the 41-byte record, data that is not a
      record (of any other length, or with a bool byte above 1), and a record
      that is already initialized. */
  lemma InitializeRejects(accounts: seq<Account>, payload: seq<byte>)
    ensures |payload| < 40 ==> Initialize(accounts, payload) == Err(InvalidInstructionData)
    ensures |payload| >= 40 && |accounts| == 0 ==> Initialize(accounts, payload) == Err(NotEnoughAccountKeys)
    ensures |payload| >= 40 && |accounts| > 0 && |accounts[0].data| < CONFIG_LEN ==>
      Initialize(accounts, payload) == Err(InvalidAccountData)
    ensures |payload| >= 40 && |accounts| > 0 && Deserialize(accounts[0].data).None? ==>
      Initialize(accounts, payload) == Err(InvalidAccountData)
    ensures |payload| >= 40 && |accounts| > 0 && Deserialize(accounts[0].data).Some?
            && Deserialize(accounts[0].data).value.initialized ==>
      Initialize(accounts, payload) == Err(AccountAlreadyInitialized)
  {
    assert |Serialize(DefaultConfig())| == CONFIG_LEN;
  }

  /** On an uninitialized record, Initialize stores the key from bytes 0..32
      and the supply from bytes 32..40, with the flag set; the stored bytes
      read back as exactly that record. */
  lemma InitializeStores(accounts: seq<Account>, payload: seq<byte>)
    requires |payload| >= 40 && |accounts| > 0
    requires Deserialize(accounts[0].data).Some? && !Deserialize(accounts[0].data).value.initialized
    ensures Initialize(accounts, payload) ==
      Ok(StoreConfig(TokenConfig(LeValue(payload[32..40]), true, payload[..32])))
    ensures Deserialize(Serialize(TokenConfig(LeValue(payload[32..40]), true, payload[..32]))) ==
      Some(TokenConfig(LeValue(payload[32..40]), true, payload[..32]))
  {
    DeserializeSerialize(TokenConfig(LeValue(payload[32..40]), true, payload[..32]));
  }

  /** After a successful Initialize has written its record, every further
      Initialize fails and so leaves the admin and cap as the first one set them. */
  lemma InitializeOnce(accounts: seq<Account>, payload: seq<byte>, payload': seq<byte>)
    requires Initialize(accounts, payload).Ok?
    ensures var written := Serialize(Initialize(accounts, payload).value.config);
      var after := accounts[0 := accounts[0].(data := written)];
      Initialize(after, payload') ==
        if |payload'| < 40 then Err(InvalidInstructionData) else Err(AccountAlreadyInitialized)
  {
    var args := ParseInitialize(payload).value;
    InitializeRecordOnce(accounts[0].data, args.admin, args.maxSupply, args.admin, args.maxSupply);
    if |payload'| >= 40 {
      var args' := ParseInitialize(payload').value;
      InitializeRecordOnce(accounts[0].data, args.admin, args.maxSupply, args'.admin, args'.maxSupply);
    }
  }

  /** An encoded Transfer, Mint or Burn reaches its handler with the amount's
      eight bytes as payload. */
  lemma {:induction false} ProcessEncodedAmount(accounts: seq<Account>, op: Opcode, amount: u64,
                                                supply: Result<u64>, sem: AddSemantics)
    requires op != Opcode.Initialize
    ensures Process(accounts, AmountInstruction(op, amount), supply, sem) ==
      match op
      case Transfer => ProcessTransfer(accounts, U64ToLe(amount))
      case Mint => ProcessMint(accounts, U64ToLe(amount), supply, sem)
      case _ => ProcessBurn(accounts, U64ToLe(amount))
  {
    DecodeAmountInstruction(op, amount);
  }

  /** An encoded Initialize is handed to Initialize with the key followed by the
      supply's eight bytes as its payload. */
  lemma {:induction false} ProcessEncodedInitialize(accounts: seq<Account>, admin: Pubkey, maxSupply: u64,
                                                    supply: Result<u64>, sem: AddSemantics)
    ensures Process(accounts, InitializeInstruction(admin, maxSupply), supply, sem) ==
      Initialize(accounts, admin + U64ToLe(maxSupply))
  {
    DecodeInitializeInstruction(admin, maxSupply);
  }

  /** On an uninitialized record, an encoded Initialize stores exactly the key
      and cap it carries. */
  lemma ProcessEncodedInitializeStores(accounts: seq<Account>, admin: Pubkey, maxSupply: u64,
                                       supply: Result<u64>, sem: AddSemantics)
    requires |accounts| > 0 && Deserialize(accounts[0].data).Some? && !Deserialize(accounts[0].data).value.initialized
    ensures Process(accounts, InitializeInstruction(admin, maxSupply), supply, sem) ==
      Ok(StoreConfig(TokenConfig(maxSupply, true, admin)))
  {
    ProcessEncodedInitialize(accounts, admin, maxSupply, supply, sem);
    DecodeInitializeInstruction(admin, maxSupply);
    InitializeStores(accounts, admin + U64ToLe(maxSupply));
  }

  /** As written, with wrapping addition: the admin, with 1000 of a 1000 cap
      already minted, still gets a mint of 2^64 - 1000 delegated, because the
      sum wraps to 0. */
  lemma MintWrapsPastCap(accounts: seq<Account>, c: TokenConfig)
    requires |accounts| >= 5 && accounts[2].isSigner
    requires Deserialize(accounts[4].data) == Some(c) && accounts[2].key == c.adminPubkey && c.maxSupply == 1000
    ensures var amount := U64_LIMIT - 1000;
      && 1000 + amount > c.maxSupply
      && ProcessMint(accounts, U64ToLe(amount), Ok(1000), OverflowWraps) ==
         Ok(Delegate(MintReq(accounts[3].key, accounts[0].key, accounts[1].key, accounts[2].key, amount)))
  {
    DecodeAmountEncoded(U64_LIMIT - 1000);
  }
}
