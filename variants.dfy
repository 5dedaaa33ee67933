/** How the two variants of the program relate, the two-step Initialize
    scenario on a real config account buffer, and the minting scenarios on
    the contents of the accounts. */
module Variants {
  import opened Codec
  import opened Runtime
  import opened Config
  import opened Instruction
  import opened SupplyCap
  import Lib = LibProgram
  import Main = MainProgram

  /** Every instruction the `src/lib.rs` variant carries out, the `src/main.rs`
      variant carries out the same way: its checks are a subset. */
  lemma LibAcceptedByMain(accounts: seq<Account>, data: seq<byte>, supply: Result<u64>, sem: AddSemantics)
    requires Lib.Process(accounts, data, supply, sem).Ok?
    ensures Main.Process(accounts, data, supply, sem) == Lib.Process(accounts, data, supply, sem)
  {
    var (instruction, payload) := DecodeInstruction(data).value;
    match instruction
    case Transfer =>
    case Mint =>
      Lib.MintAccepted(accounts, payload, supply, sem);
      Main.MintAccepted(accounts, payload, supply, sem);
    case Burn =>
    case Initialize =>
      InitializeAgrees(accounts, data, supply, sem);
  }

  /** The storage-size check of the `src/lib.rs` Initialize never changes the
      outcome: Borsh already refuses any buffer that is not exactly 41 bytes.
      The two variants give the same result on every Initialize instruction. */
  lemma InitializeAgrees(accounts: seq<Account>, data: seq<byte>, supply: Result<u64>, sem: AddSemantics)
    requires |data| > 0 && data[0] == OpcodeByte(Opcode.Initialize)
    ensures Lib.Process(accounts, data, supply, sem) == Main.Process(accounts, data, supply, sem)
  {
    assert |Serialize(DefaultConfig())| == CONFIG_LEN;
    if |data[1..]| >= 40 && |accounts| > 0 && |accounts[0].data| < CONFIG_LEN {
      assert Deserialize(accounts[0].data).None?;
    }
  }

  /** The `src/main.rs` Mint lets the admin's key through without a signature,
      which the `src/lib.rs` Mint refuses. */
  lemma MainMintsUnsigned(accounts: seq<Account>, amount: u64, current: u64, c: TokenConfig, sem: AddSemantics)
    requires |accounts| >= 5 && !accounts[2].isSigner
    requires Deserialize(accounts[4].data) == Some(c) && accounts[2].key == c.adminPubkey
    requires current + amount <= c.maxSupply
    ensures Lib.Process(accounts, AmountInstruction(Mint, amount), Ok(current), sem) == Err(MissingRequiredSignature)
    ensures Main.Process(accounts, AmountInstruction(Mint, amount), Ok(current), sem) ==
      Ok(Delegate(MintReq(accounts[3].key, accounts[0].key, accounts[1].key, accounts[2].key, amount)))
  {
    Lib.ProcessEncodedAmount(accounts, Mint, amount, Ok(current), sem);
    Main.ProcessEncodedAmount(accounts, Mint, amount, Ok(current), sem);
    Lib.MintUnsignedRejected(accounts, amount, Ok(current), sem);
    Main.MintAccepted(accounts, U64ToLe(amount), Ok(current), sem);
  }

  /** Initialize twice under `src/lib.rs`, on the config account's buffer: a
      record that is not yet initialized is initialized with admin A and cap
      1000; a second Initialize, for any other key and cap, is refused and the
      buffer still reads as the first record. */
  method LibInitializeTwice(config: AccountInfo, adminKey: Pubkey, otherKey: Pubkey, otherCap: u64,
                            sem: AddSemantics)
    requires Deserialize(config.data[..]).Some? && !Deserialize(config.data[..]).value.initialized
    modifies config.data
    ensures Deserialize(config.data[..]) == Some(TokenConfig(1000, true, adminKey))
  {
    var first := TokenConfig(1000, true, adminKey);
    Lib.ProcessEncodedInitializeStores(Snapshot([config]), adminKey, 1000, Ok(0), sem);
    var r := Lib.ProcessInstruction([config], InitializeInstruction(adminKey, 1000), Ok(0), sem);
    assert r == Ok(StoreConfig(first));
    DeserializeSerialize(first);

    ghost var before := Snapshot([config]);
    Lib.ProcessEncodedInitialize(before, otherKey, otherCap, Ok(0), sem);
    Lib.InitializeRejects(before, otherKey + U64ToLe(otherCap));
    r := Lib.ProcessInstruction([config], InitializeInstruction(otherKey, otherCap), Ok(0), sem);
    assert r == Err(AccountAlreadyInitialized);
  }

  /** The minting scenario under either variant, on the record written by
      Initialize(A, 1000): A mints 1000 at supply 0; one more at supply 1000 is
      refused with `Custom(1)`. */
  lemma MintScenario(accounts: seq<Account>, sem: AddSemantics)
    requires |accounts| >= 5 && accounts[2].isSigner
    requires accounts[4].data == Serialize(TokenConfig(1000, true, accounts[2].key))
    ensures Lib.Process(accounts, AmountInstruction(Mint, 1000), Ok(0), sem) ==
      Ok(Delegate(MintReq(accounts[3].key, accounts[0].key, accounts[1].key, accounts[2].key, 1000)))
    ensures Lib.Process(accounts, AmountInstruction(Mint, 1), Ok(1000), sem) == Err(Custom(1))
    ensures Main.Process(accounts, AmountInstruction(Mint, 1000), Ok(0), sem) ==
      Ok(Delegate(MintReq(accounts[3].key, accounts[0].key, accounts[1].key, accounts[2].key, 1000)))
    ensures Main.Process(accounts, AmountInstruction(Mint, 1), Ok(1000), sem) == Err(Custom(1))
  {
    var c := TokenConfig(1000, true, accounts[2].key);
    DeserializeSerialize(c);
    Lib.ProcessEncodedAmount(accounts, Mint, 1000, Ok(0), sem);
    Lib.ProcessEncodedAmount(accounts, Mint, 1, Ok(1000), sem);
    Main.ProcessEncodedAmount(accounts, Mint, 1000, Ok(0), sem);
    Main.ProcessEncodedAmount(accounts, Mint, 1, Ok(1000), sem);
    Lib.MintAccepted(accounts, U64ToLe(1000), Ok(0), sem);
    Main.MintAccepted(accounts, U64ToLe(1000), Ok(0), sem);
    Lib.MintAccepted(accounts, U64ToLe(1), Ok(1000), sem);
    Main.MintAccepted(accounts, U64ToLe(1), Ok(1000), sem);
  }

  /** On the record written by Initialize(A, 1000), a signing mint authority
      other than A is refused under either variant, whatever the amount and
      the supply: `Custom(2)` in `src/lib.rs`, `MissingRequiredSignature` in
      `src/main.rs`. */
  lemma IntruderScenario(accounts: seq<Account>, admin: Pubkey, amount: u64, supply: Result<u64>, sem: AddSemantics)
    requires |accounts| >= 5 && accounts[2].isSigner && accounts[2].key != admin
    requires accounts[4].data == Serialize(TokenConfig(1000, true, admin))
    ensures Lib.Process(accounts, AmountInstruction(Mint, amount), supply, sem) == Err(Custom(2))
    ensures Main.Process(accounts, AmountInstruction(Mint, amount), supply, sem) == Err(MissingRequiredSignature)
  {
    var c := TokenConfig(1000, true, admin);
    DeserializeSerialize(c);
    Lib.ProcessEncodedAmount(accounts, Mint, amount, supply, sem);
    Main.ProcessEncodedAmount(accounts, Mint, amount, supply, sem);
    Lib.MintWrongAdminRejected(accounts, amount, supply, sem, c);
    Main.MintWrongAdminRejected(accounts, amount, supply, sem, c);
  }
}
