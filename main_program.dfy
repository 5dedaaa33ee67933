/** The `src/main.rs` variant of the program: no signer checks, the Initialize
    payload parsed in the dispatcher, no storage-size check, and
    `InvalidInstructionData` / `MissingRequiredSignature` where `src/lib.rs`
    has custom codes. Every handler takes its accounts before decoding the amount. */
module MainProgram {
  import opened Codec
  import opened Runtime
  import opened Config
  import opened Instruction
  import opened SupplyCap

  /** `u64::from_le_bytes(instruction_data.try_into().map_err(|_| InvalidInstructionData)?)`. */
  function DecodeAmount(data: seq<byte>): (r: Result<u64>)
    ensures r.Ok? <==> |data| == 8
    ensures r.Ok? ==> r.value == LeValue(data) && U64ToLe(r.value) == data
    ensures r.Err? ==> r.error == InvalidInstructionData
  {
    match U64FromLe(data)
    case None => Err(InvalidInstructionData)
    case Some(amount) => Ok(amount)
  }

  /** `process_transfer`: four accounts, then an amount that must be eight
      bytes and nonzero. */
  function ProcessTransfer(accounts: seq<Account>, payload: seq<byte>): (r: Result<Effect>)
    ensures r.Ok? ==> r.value.Delegate? && r.value.request.TransferReq?
  {
    var taken :- NextAccounts(accounts, 4);
    var fromAccount, toAccount, authority, tokenProgram := taken.0[0], taken.0[1], taken.0[2], taken.0[3];
    var amount :- DecodeAmount(payload);
    if amount == 0 then Err(InvalidInstructionData)
    else Ok(Delegate(TransferReq(tokenProgram.key, fromAccount.key, toAccount.key, authority.key, amount)))
  }

  /** `process_mint`: five accounts, the amount, the config record; an
      authority that is not the admin is `MissingRequiredSignature` (its
      signature is never looked at); then the supply and the cap. */
  function ProcessMint(accounts: seq<Account>, payload: seq<byte>, supply: Result<u64>, sem: AddSemantics)
    : (r: Result<Effect>)
    ensures r.Ok? ==> r.value.Delegate? && r.value.request.MintReq?
  {
    var taken :- NextAccounts(accounts, 5);
    var mint, destination, mintAuthority, tokenProgram, configAccount :=
      taken.0[0], taken.0[1], taken.0[2], taken.0[3], taken.0[4];
    var amount :- DecodeAmount(payload);
    var tokenConfig :- LoadConfig(configAccount.data);
    if mintAuthority.key != tokenConfig.adminPubkey then Err(MissingRequiredSignature)
    else
      var currentSupply :- supply;
      var exceeds :- CapExceeded(currentSupply, amount, tokenConfig.maxSupply, sem);
      if exceeds then Err(MaxSupplyExceeded.Into())
      else Ok(Delegate(MintReq(tokenProgram.key, mint.key, destination.key, mintAuthority.key, amount)))
  }

  /** `process_burn`: four accounts and an eight-byte amount; nothing else is checked. */
  function ProcessBurn(accounts: seq<Account>, payload: seq<byte>): (r: Result<Effect>)
    ensures r.Ok? ==> r.value.Delegate? && r.value.request.BurnReq?
  {
    var taken :- NextAccounts(accounts, 4);
    var burnAccount, mint, burnAuthority, tokenProgram := taken.0[0], taken.0[1], taken.0[2], taken.0[3];
    var amount :- DecodeAmount(payload);
    Ok(Delegate(BurnReq(tokenProgram.key, burnAccount.key, mint.key, burnAuthority.key, amount)))
  }

  /** `process_initialize` on the accounts' contents, given the parsed key and
      supply: take the config account and initialize its record. */
  function Initialize(accounts: seq<Account>, admin: Pubkey, maxSupply: u64): (r: Result<Effect>)
    ensures r.Ok? ==> r.value.StoreConfig?
  {
    var first :- NextAccountInfo(accounts);
    var tokenConfig :- InitializeRecord(first.0.data, admin, maxSupply);
    Ok(StoreConfig(tokenConfig))
  }

  /** `process_instruction` on the accounts' contents; the Initialize payload
      is parsed here. */
  function Process(accounts: seq<Account>, data: seq<byte>, supply: Result<u64>, sem: AddSemantics)
    : (r: Result<Effect>)
    ensures |data| == 0 || data[0] > 3 ==> r == Err(InvalidInstructionData)
    ensures r.Ok? ==> |data| > 0 && data[0] < 4
    ensures r.Ok? ==> (r.value.StoreConfig? <==> data[0] == OpcodeByte(Opcode.Initialize))
  {
    var (instruction, restOfData) :- DecodeInstruction(data);
    match instruction
    case Transfer => ProcessTransfer(accounts, restOfData)
    case Mint => ProcessMint(accounts, restOfData, supply, sem)
    case Burn => ProcessBurn(accounts, restOfData)
    case Initialize =>
      var args :- ParseInitialize(restOfData);
      Initialize(accounts, args.admin, args.maxSupply)
  }

  /** `process_initialize`, run on the accounts themselves. */
  method ProcessInitialize(accounts: seq<AccountInfo>, admin: Pubkey, maxSupply: u64) returns (r: Result<Effect>)
    modifies if |accounts| > 0 then {accounts[0].data} else {}
    ensures r == old(Initialize(Snapshot(accounts), admin, maxSupply))
    ensures r.Ok? ==> |accounts| > 0 && accounts[0].data[..] == Serialize(r.value.config)
    ensures r.Err? && |accounts| > 0 ==> accounts[0].data[..] == old(accounts[0].data[..])
  {
    var accountInfoIter := accounts;
    var next :- NextAccountInfo(accountInfoIter);
    var configAccount := next.0;
    accountInfoIter := next.1;
    var tokenConfig :- InitializeInPlace(configAccount.data, admin, maxSupply);
    r := Ok(StoreConfig(tokenConfig));
  }

  /** `process_instruction`, run on the accounts themselves; only a successful
      Initialize changes anything, and then only the first account's data. */
  method ProcessInstruction(accounts: seq<AccountInfo>, instructionData: seq<byte>,
                            supply: Result<u64>, sem: AddSemantics)
    returns (r: Result<Effect>)
    modifies if |accounts| > 0 then {accounts[0].data} else {}
    ensures r == old(Process(Snapshot(accounts), instructionData, supply, sem))
    ensures r.Ok? && r.value.StoreConfig? ==>
      |accounts| > 0 && accounts[0].data[..] == Serialize(r.value.config)
    ensures !(r.Ok? && r.value.StoreConfig?) && |accounts| > 0 ==>
      accounts[0].data[..] == old(accounts[0].data[..])
  {
    var decoded :- DecodeInstruction(instructionData);
    var (instruction, restOfData) := decoded;
    match instruction {
      case Transfer => r := ProcessTransfer(Snapshot(accounts), restOfData);
      case Mint => r := ProcessMint(Snapshot(accounts), restOfData, supply, sem);
      case Burn => r := ProcessBurn(Snapshot(accounts), restOfData);
      case Initialize =>
        var args :- ParseInitialize(restOfData);
        r := ProcessInitialize(accounts, args.admin, args.maxSupply);
    }
  }

  // ---------------------------------------------------------------------
  // Properties

  /** An empty instruction, or one whose first byte is not an opcode, is
      `InvalidInstructionData`, and so stores nothing and delegates nothing. */
  lemma RejectsUnknownInstruction(accounts: seq<Account>, data: seq<byte>, supply: Result<u64>, sem: AddSemantics)
    requires |data| == 0 || data[0] > 3
    ensures Process(accounts, data, supply, sem) == Err(InvalidInstructionData)
  {
  }

  /** Transfer takes its four accounts first: with fewer it is
      `NotEnoughAccountKeys` even when the amount is also bad. With four, an
      amount that is not eight bytes or is zero is `InvalidInstructionData`,
      and any other delegates exactly that transfer. */
  lemma TransferChecks(accounts: seq<Account>, payload: seq<byte>)
    ensures |accounts| < 4 ==> ProcessTransfer(accounts, payload) == Err(NotEnoughAccountKeys)
    ensures |accounts| >= 4 && (|payload| != 8 || LeValue(payload) == 0) ==>
      ProcessTransfer(accounts, payload) == Err(InvalidInstructionData)
    ensures |accounts| >= 4 && |payload| == 8 && LeValue(payload) > 0 ==>
      ProcessTransfer(accounts, payload) ==
      Ok(Delegate(TransferReq(accounts[3].key, accounts[0].key, accounts[1].key, accounts[2].key, LeValue(payload))))
  {
  }

  /** A mint is delegated exactly when the record loads, the authority's key
      is the admin's, the supply unpacks and the cap holds; nobody's signature
      is required. It is then the one request for the decoded amount. */
  lemma MintAccepted(accounts: seq<Account>, payload: seq<byte>, supply: Result<u64>, sem: AddSemantics)
    ensures ProcessMint(accounts, payload, supply, sem).Ok? <==>
      && |accounts| >= 5 && |payload| == 8
      && Deserialize(accounts[4].data).Some?
      && accounts[2].key == Deserialize(accounts[4].data).value.adminPubkey
      && supply.Ok?
      && CapExceeded(supply.value, LeValue(payload), Deserialize(accounts[4].data).value.maxSupply, sem) == Ok(false)
    ensures ProcessMint(accounts, payload, supply, sem).Ok? ==>
      ProcessMint(accounts, payload, supply, sem) ==
      Ok(Delegate(MintReq(accounts[3].key, accounts[0].key, accounts[1].key, accounts[2].key, LeValue(payload))))
  {
  }

  /** The other ways Mint fails, accounts first: fewer than five accounts is
      `NotEnoughAccountKeys` whatever the amount; then an amount that is not
      eight bytes is `InvalidInstructionData`; config data that is not a
      record is `InvalidAccountData`; for the admin's key, a mint account that
      does not unpack fails with the unpack error. */
  lemma MintRejects(accounts: seq<Account>, payload: seq<byte>, supply: Result<u64>, sem: AddSemantics)
    ensures |accounts| < 5 ==> ProcessMint(accounts, payload, supply, sem) == Err(NotEnoughAccountKeys)
    ensures |accounts| >= 5 && |payload| != 8 ==> ProcessMint(accounts, payload, supply, sem) == Err(InvalidInstructionData)
    ensures |accounts| >= 5 && |payload| == 8 && Deserialize(accounts[4].data).None? ==>
      ProcessMint(accounts, payload, supply, sem) == Err(InvalidAccountData)
    ensures |accounts| >= 5 && |payload| == 8 && Deserialize(accounts[4].data).Some?
            && accounts[2].key == Deserialize(accounts[4].data).value.adminPubkey && supply.Err? ==>
      ProcessMint(accounts, payload, supply, sem) == Err(supply.error)
  {
  }

  /** An authority key other than the record's admin is `MissingRequiredSignature`,
      whatever the supply. */
  lemma MintWrongAdminRejected(accounts: seq<Account>, amount: u64, supply: Result<u64>, sem: AddSemantics,
                               c: TokenConfig)
    requires |accounts| >= 5
    requires Deserialize(accounts[4].data) == Some(c) && accounts[2].key != c.adminPubkey
    ensures ProcessMint(accounts, U64ToLe(amount), supply, sem) == Err(MissingRequiredSignature)
  {
    DecodeAmountEncoded(amount);
  }

  /** With the admin's key, the cap decides: above it is `Custom(1)` (or a
      panic on overflow with overflow checks on), equal to or below it mints
      exactly `amount`. This holds in every build as long as the sum does not
      overflow. */
  lemma MintCap(accounts: seq<Account>, amount: u64, current: u64, sem: AddSemantics, c: TokenConfig)
    requires |accounts| >= 5
    requires Deserialize(accounts[4].data) == Some(c) && accounts[2].key == c.adminPubkey
    requires sem != OverflowWraps || current + amount < U64_LIMIT
    ensures current + amount <= c.maxSupply ==>
      ProcessMint(accounts, U64ToLe(amount), Ok(current), sem) ==
      Ok(Delegate(MintReq(accounts[3].key, accounts[0].key, accounts[1].key, accounts[2].key, amount)))
    ensures current + amount > c.maxSupply ==>
      ProcessMint(accounts, U64ToLe(amount), Ok(current), sem) ==
      if current + amount >= U64_LIMIT && sem == OverflowPanics then Err(Panic) else Err(MaxSupplyExceeded.Into())
  {
    DecodeAmountEncoded(amount);
  }

  /** With wrapping addition and any sum, overflowing or not, the wrapped sum
      decides: above the cap is `Custom(1)`, otherwise exactly the mint is
      delegated. */
  lemma MintCapWrapping(accounts: seq<Account>, amount: u64, current: u64, c: TokenConfig)
    requires |accounts| >= 5
    requires Deserialize(accounts[4].data) == Some(c) && accounts[2].key == c.adminPubkey
    ensures ProcessMint(accounts, U64ToLe(amount), Ok(current), OverflowWraps) ==
      if (current + amount) % U64_LIMIT > c.maxSupply then Err(MaxSupplyExceeded.Into())
      else Ok(Delegate(MintReq(accounts[3].key, accounts[0].key, accounts[1].key, accounts[2].key, amount)))
  {
    DecodeAmountEncoded(amount);
  }


  /** Unless the sum wraps, every delegated mint names the record's admin as
      authority and keeps the supply within the record's cap. */
  lemma MintRespectsCap(accounts: seq<Account>, data: seq<byte>, supply: Result<u64>, sem: AddSemantics)
    requires sem != OverflowWraps
    requires Process(accounts, data, supply, sem).Ok?
    requires Process(accounts, data, supply, sem).value.Delegate?
    requires Process(accounts, data, supply, sem).value.request.MintReq?
    ensures |accounts| >= 5 && Deserialize(accounts[4].data).Some? && supply.Ok?
    ensures var c := Deserialize(accounts[4].data).value;
            var req := Process(accounts, data, supply, sem).value.request;
            req.authority == c.adminPubkey && supply.value + req.amount <= c.maxSupply
  {
    MintAccepted(accounts, data[1..], supply, sem);
  }

  /** Mint never reads the `initialized` flag. */
  lemma MintIgnoresInitialized(accounts: seq<Account>, payload: seq<byte>, supply: Result<u64>,
                               sem: AddSemantics, c: TokenConfig)
    requires |accounts| >= 5
    ensures var flip := c.(initialized := !c.initialized);
      ProcessMint(accounts[4 := accounts[4].(data := Serialize(c))], payload, supply, sem) ==
      ProcessMint(accounts[4 := accounts[4].(data := Serialize(flip))], payload, supply, sem)
  {
    DeserializeSerialize(c);
    DeserializeSerialize(c.(initialized := !c.initialized));
  }

  /** Burn checks neither a signature nor the amount: four accounts and eight
      bytes delegate a burn of their value, zero included. */
  lemma BurnDelegates(accounts: seq<Account>, payload: seq<byte>)
    ensures |accounts| < 4 ==> ProcessBurn(accounts, payload) == Err(NotEnoughAccountKeys)
    ensures |accounts| >= 4 && |payload| != 8 ==> ProcessBurn(accounts, payload) == Err(InvalidInstructionData)
    ensures |accounts| >= 4 && |payload| == 8 ==>
      ProcessBurn(accounts, payload) ==
      Ok(Delegate(BurnReq(accounts[3].key, accounts[0].key, accounts[1].key, accounts[2].key, LeValue(payload))))
  {
  }

  /** The dispatcher's Initialize: a payload shorter than 40 bytes is
      `InvalidInstructionData`; otherwise the key is bytes 0..32 and the supply
      the little-endian value of bytes 32..40, and later bytes are ignored. */
  lemma InitializeParsed(accounts: seq<Account>, payload: seq<byte>, supply: Result<u64>, sem: AddSemantics)
    ensures |payload| < 40 ==>
      Process(accounts, [OpcodeByte(Opcode.Initialize)] + payload, supply, sem) == Err(InvalidInstructionData)
    ensures |payload| >= 40 ==>
      Process(accounts, [OpcodeByte(Opcode.Initialize)] + payload, supply, sem) ==
      Initialize(accounts, payload[..32], U64FromLe(payload[32..40]).value)
  {
    DecodeEncoded(Opcode.Initialize, payload);
  }

  /** `process_initialize` has no storage-size check of its own: it refuses an
      account list without the config account, data that is not a record, and
      a record already initialized; otherwise it stores the given key and
      supply with the flag set. */
  lemma InitializeChecks(accounts: seq<Account>, admin: Pubkey, maxSupply: u64)
    ensures |accounts| == 0 ==> Initialize(accounts, admin, maxSupply) == Err(NotEnoughAccountKeys)
    ensures |accounts| > 0 && Deserialize(accounts[0].data).None? ==>
      Initialize(accounts, admin, maxSupply) == Err(InvalidAccountData)
    ensures |accounts| > 0 && Deserialize(accounts[0].data).Some? ==>
      Initialize(accounts, admin, maxSupply) ==
      if Deserialize(accounts[0].data).value.initialized then Err(AccountAlreadyInitialized)
      else Ok(StoreConfig(TokenConfig(maxSupply, true, admin)))
  {
  }

  /** After a successful Initialize has written its record, every further
      Initialize fails and so leaves the admin and cap as the first one set them. */
  lemma InitializeOnce(accounts: seq<Account>, admin: Pubkey, maxSupply: u64, admin': Pubkey, maxSupply': u64)
    requires Initialize(accounts, admin, maxSupply).Ok?
    ensures var written := Serialize(Initialize(accounts, admin, maxSupply).value.config);
      Initialize(accounts[0 := accounts[0].(data := written)], admin', maxSupply') == Err(AccountAlreadyInitialized)
  {
    InitializeRecordOnce(accounts[0].data, admin, maxSupply, admin', maxSupply');
  }

  /** Decoding the encoding of any u64 gives it back. */
  lemma {:induction false} DecodeAmountEncoded(n: u64)
    ensures DecodeAmount(U64ToLe(n)) == Ok(n)
  {
    LeBytesOfValue(U64ToLe(n));
  }

  /** An encoded Transfer, Mint or Burn reaches its handler with the amount's
      eight bytes as payload. */
  lemma {:induction false} ProcessEncodedAmount(accounts: seq<Account>, op: Opcode, amount: u64,
                                                supply: Result<u64>, sem: AddSemantics)
    requires op != Opcode.Initialize
    ensures Process(accounts, AmountInstruction(op, amount), supply, sem) ==
      match op
      case Transfer => ProcessTransfer(accounts, U64ToLe(amount))
      case Mint => ProcessMint(accounts, U64ToLe(amount), supply, sem)
      case _ => ProcessBurn(accounts, U64ToLe(amount))
  {
    DecodeAmountInstruction(op, amount);
  }

  /** An encoded Initialize is handed to Initialize with the key and cap it carries. */
  lemma {:induction false} ProcessEncodedInitialize(accounts: seq<Account>, admin: Pubkey, maxSupply: u64,
                                                    supply: Result<u64>, sem: AddSemantics)
    ensures Process(accounts, InitializeInstruction(admin, maxSupply), supply, sem) ==
      Initialize(accounts, admin, maxSupply)
  {
    DecodeInitializeInstruction(admin, maxSupply);
  }

  /** As written, with wrapping addition: the admin, with 1000 of a 1000 cap
      already minted, still gets a mint of 2^64 - 1000 delegated, because the
      sum wraps to 0. */
  lemma MintWrapsPastCap(accounts: seq<Account>, c: TokenConfig)
    requires |accounts| >= 5
    requires Deserialize(accounts[4].data) == Some(c) && accounts[2].key == c.adminPubkey && c.maxSupply == 1000
    ensures var amount := U64_LIMIT - 1000;
      && 1000 + amount > c.maxSupply
      && ProcessMint(accounts, U64ToLe(amount), Ok(1000), OverflowWraps) ==
         Ok(Delegate(MintReq(accounts[3].key, accounts[0].key, accounts[1].key, accounts[2].key, amount)))
  {
    DecodeAmountEncoded(U64_LIMIT - 1000);
  }
}
