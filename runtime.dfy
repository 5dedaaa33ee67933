/** What the program sees of the Solana runtime: public keys, `ProgramError`,
    `AccountInfo` and `next_account_info`, and the cross-program requests it
    hands to the SPL-Token program through `invoke`. */
module Runtime {
  import opened Codec

  const PUBKEY_LEN: nat := 32

  /** A 32-byte public key. */
  type Pubkey = s: seq<byte> | |s| == PUBKEY_LEN witness seq(32, i => 0)

  /** The `ProgramError` values this program can return. */
  datatype ProgramError =
    | Custom(code: nat)
    | InvalidInstructionData
    | InvalidAccountData
    | AccountAlreadyInitialized
    | MissingRequiredSignature
    | NotEnoughAccountKeys
      /** What `Mint::unpack` returns for a mint account that is not initialized;
          the model takes the unpack result as an input, so no handler builds it. */
    | UninitializedAccount
      /** Not a `ProgramError`: an arithmetic-overflow panic, which aborts the
          whole request. It is a failure tag here so that it has no effect either. */
    | Panic

  /** The program's `CustomError` enum and its `into()` conversion to `ProgramError::Custom`. */
  datatype CustomError = MaxSupplyExceeded | UnauthorizedMint | InvalidAmount
  {
    function Code(): (c: nat)
      ensures 1 <= c <= 3
    {
      match this
      case MaxSupplyExceeded => 1
      case UnauthorizedMint => 2
      case InvalidAmount => 3
    }

    function Into(): (e: ProgramError)
      ensures e.Custom?
    {
      Custom(Code())
    }
  }

  /** `Result<T, ProgramError>`, usable with `:-` as Rust's `?`. */
  datatype Result<T> = Ok(value: T) | Err(error: ProgramError)
  {
    predicate IsFailure() { Err? }

    function PropagateFailure<U>(): Result<U>
      requires Err?
    {
      Err(error)
    }

    function Extract(): T
      requires Ok?
    {
      value
    }
  }

  /** `ProgramResult`, which is `Result<(), ProgramError>`, usable with `:-`. */
  datatype ProgramResult = Success | Failure(error: ProgramError)
  {
    predicate IsFailure() { Failure? }

    function PropagateFailure<U>(): Result<U>
      requires Failure?
    {
      Err(error)
    }
  }

  /** An `AccountInfo` handed to the program: its key, whether it signed the
      transaction, and its data, a fixed-size byte buffer the program may
      borrow mutably. Two entries may share one buffer when the same account is
      passed twice. */
  datatype AccountInfo = AccountInfo(key: Pubkey, isSigner: bool, data: array<byte>)

  /** The value of an `AccountInfo` at one moment: the data buffer's contents
      instead of the buffer. */
  datatype Account = Account(key: Pubkey, isSigner: bool, data: seq<byte>)

  /** The data buffers of the given accounts. */
  function Storage(accounts: seq<AccountInfo>): set<array<byte>>
  {
    set i | 0 <= i < |accounts| :: accounts[i].data
  }

  /** The accounts as they are in the current heap. */
  function Snapshot(accounts: seq<AccountInfo>): (s: seq<Account>)
    reads Storage(accounts)
    ensures |s| == |accounts|
    ensures forall i :: 0 <= i < |accounts| ==>
      s[i] == Account(accounts[i].key, accounts[i].isSigner, accounts[i].data[..])
  {
    seq(|accounts|, i requires 0 <= i < |accounts| reads Storage(accounts) =>
      Account(accounts[i].key, accounts[i].isSigner, accounts[i].data[..]))
  }

  /** `next_account_info`: take the next account from the iterator (here the
      sequence of accounts not yet taken), or fail when there is none. */
  function NextAccountInfo<T>(iter: seq<T>): (r: Result<(T, seq<T>)>)
    ensures r.Ok? <==> iter != []
    ensures r.Ok? ==> [r.value.0] + r.value.1 == iter
    ensures r.Err? ==> r.error == NotEnoughAccountKeys
  {
    if iter == [] then Err(NotEnoughAccountKeys) else Ok((iter[0], iter[1..]))
  }

  /** n consecutive `next_account_info` calls: the accounts taken and the rest. */
  function NextAccounts<T>(iter: seq<T>, n: nat): (r: Result<(seq<T>, seq<T>)>)
    ensures r.Ok? <==> n <= |iter|
    ensures r.Ok? ==> r.value.0 == iter[..n] && r.value.1 == iter[n..]
    ensures r.Err? ==> r.error == NotEnoughAccountKeys
  {
    if n == 0 then Ok(([], iter))
    else
      var first :- NextAccountInfo(iter);
      var more :- NextAccounts(first.1, n - 1);
      Ok(([first.0] + more.0, more.1))
  }

  /** An instruction built by one of the `spl_token::instruction` builders and
      passed to `invoke`. `program` is the key of the account given as the token
      program; the other fields are the builder's arguments. */
  datatype LedgerRequest =
    | TransferReq(program: Pubkey, source: Pubkey, destination: Pubkey, authority: Pubkey, amount: u64)
    | MintReq(program: Pubkey, mint: Pubkey, destination: Pubkey, authority: Pubkey, amount: u64)
    | BurnReq(program: Pubkey, source: Pubkey, mint: Pubkey, authority: Pubkey, amount: u64)
}
