/** The `TokenConfig` record, its Borsh encoding, and the one-shot
    initialization of the account that stores it. */
module Config {
  import opened Codec
  import opened Runtime

  /** `struct TokenConfig { max_supply: u64, initialized: bool, admin_pubkey: Pubkey }`. */
  datatype TokenConfig = TokenConfig(maxSupply: u64, initialized: bool, adminPubkey: Pubkey)

  /** `TokenConfig::default()`: a record that is not initialized, whose
      41-byte serialization loads back as itself. */
  function DefaultConfig(): (c: TokenConfig)
    ensures !c.initialized
    ensures |Serialize(c)| == CONFIG_LEN && Deserialize(Serialize(c)) == Some(c)
  {
    var c := TokenConfig(0, false, seq(PUBKEY_LEN, i => 0));
    DeserializeSerialize(c);
    c
  }

  /** The length of every serialized record: 8 + 1 + 32. */
  const CONFIG_LEN: nat := 41

  /** Borsh's encoding of a bool. */
  function BoolByte(b: bool): byte
  {
    if b then 1 else 0
  }

  /** Borsh serialization of the fields in declaration order: max_supply as
      8 little-endian bytes, initialized as one byte, then the key's 32 bytes. */
  function Serialize(c: TokenConfig): (s: seq<byte>)
    ensures |s| == CONFIG_LEN
  {
    U64ToLe(c.maxSupply) + [BoolByte(c.initialized)] + c.adminPubkey
  }

  /** `TokenConfig::try_from_slice`. Borsh reads the three fields in order and
      then fails unless every byte was consumed, so exactly 41 bytes are
      accepted; a bool byte other than 0 or 1 is rejected. None stands for any
      of these errors. A record that loads serializes to the very bytes it was
      read from. */
  function Deserialize(s: seq<byte>): (r: Option<TokenConfig>)
    ensures r.Some? <==> |s| == CONFIG_LEN && s[8] <= 1
    ensures r.Some? ==> Serialize(r.value) == s
  {
    if |s| < CONFIG_LEN then None        // unexpected end of input
    else if s[8] > 1 then None           // invalid bool
    else if |s| > CONFIG_LEN then None   // not all bytes read
    else
      var maxSupply := U64FromLe(s[..8]);
      assert s == s[..8] + [s[8]] + s[9..];
      Some(TokenConfig(maxSupply.value, s[8] == 1, s[9..]))
  }

  /** Reading back a serialized record gives the same fields. */
  lemma DeserializeSerialize(c: TokenConfig)
    ensures Deserialize(Serialize(c)) == Some(c)
  {
    var s := Serialize(c);
    assert s[..8] == U64ToLe(c.maxSupply);
    assert s[9..] == c.adminPubkey;
  }

  /** `TokenConfig::try_from_slice(&config_data).map_err(|_| ProgramError::InvalidAccountData)`. */
  function LoadConfig(data: seq<byte>): (r: Result<TokenConfig>)
    ensures r.Ok? <==> Deserialize(data).Some?
    ensures r.Ok? ==> Deserialize(data) == Some(r.value)
    ensures r.Err? ==> r.error == InvalidAccountData
  {
    match Deserialize(data)
    case None => Err(InvalidAccountData)
    case Some(tokenConfig) => Ok(tokenConfig)
  }

  /** The state change of `process_initialize` on the stored bytes, once the
      instruction has been parsed and the config account found: read the record
      (any failure is `InvalidAccountData`), refuse if it is already
      initialized, otherwise set all three fields. Ok carries the record to be
      written back. */
  function InitializeRecord(stored: seq<byte>, admin: Pubkey, maxSupply: u64): (r: Result<TokenConfig>)
    ensures r.Ok? <==> Deserialize(stored).Some? && !Deserialize(stored).value.initialized
    ensures r.Ok? ==> r.value == TokenConfig(maxSupply, true, admin)
    ensures Deserialize(stored).None? ==> r == Err(InvalidAccountData)
    ensures Deserialize(stored).Some? && Deserialize(stored).value.initialized ==>
      r == Err(AccountAlreadyInitialized)
  {
    var tokenConfig :- LoadConfig(stored);
    if tokenConfig.initialized then Err(AccountAlreadyInitialized)
    else Ok(tokenConfig.(adminPubkey := admin, maxSupply := maxSupply, initialized := true))
  }

  /** A record written by a successful initialization cannot be initialized
      again, whatever the second call asks for. */
  lemma {:induction false} InitializeRecordOnce(stored: seq<byte>, admin: Pubkey, maxSupply: u64,
                                               admin': Pubkey, maxSupply': u64)
    requires InitializeRecord(stored, admin, maxSupply).Ok?
    ensures InitializeRecord(Serialize(InitializeRecord(stored, admin, maxSupply).value), admin', maxSupply')
            == Err(AccountAlreadyInitialized)
  {
    DeserializeSerialize(TokenConfig(maxSupply, true, admin));
  }

  /** Borsh `serialize` into `&mut [u8]`: the bytes are written over the front
      of the buffer. Borsh fails with an I/O error when the buffer is too short;
      the one caller has already read exactly 41 bytes from the same buffer, so
      that error cannot arise there and is excluded here. */
  method WriteBytes(buffer: array<byte>, bytes: seq<byte>)
    requires |bytes| <= buffer.Length
    modifies buffer
    ensures buffer[..] == bytes + old(buffer[|bytes|..])
  {
    forall i | 0 <= i < |bytes| {
      buffer[i] := bytes[i];
    }
  }

  /** Lines shared by both `process_initialize` functions, run on the mutably
      borrowed config buffer: deserialize it, refuse if initialized, assign the
      three fields of the local record and serialize it back in place. On any
      error the buffer is left as it was. */
  method InitializeInPlace(configData: array<byte>, admin: Pubkey, maxSupply: u64)
    returns (r: Result<TokenConfig>)
    modifies configData
    ensures r == old(InitializeRecord(configData[..], admin, maxSupply))
    ensures r.Ok? ==> configData[..] == Serialize(r.value)
    ensures r.Err? ==> configData[..] == old(configData[..])
  {
    var tokenConfig :- LoadConfig(configData[..]);
    if tokenConfig.initialized {
      return Err(AccountAlreadyInitialized);
    }
    tokenConfig := tokenConfig.(adminPubkey := admin);
    tokenConfig := tokenConfig.(maxSupply := maxSupply);
    tokenConfig := tokenConfig.(initialized := true);
    WriteBytes(configData, Serialize(tokenConfig));
    r := Ok(tokenConfig);
  }
}
