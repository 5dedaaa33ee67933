/** The instruction encoding shared by both program variants: one opcode byte,
    then the operation's payload. */
module Instruction {
  import opened Codec
  import opened Runtime
  import opened Config

  datatype Opcode = Transfer | Mint | Burn | Initialize

  function OpcodeByte(op: Opcode): byte
  {
    match op
    case Transfer => 0
    case Mint => 1
    case Burn => 2
    case Initialize => 3
  }

  /** `instruction_data.split_first()` and the `match` on its first byte: an
      empty buffer, or a first byte other than 0..3, is `InvalidInstructionData`. */
  function DecodeInstruction(data: seq<byte>): (r: Result<(Opcode, seq<byte>)>)
    ensures r.Ok? <==> |data| > 0 && data[0] < 4
    ensures r.Ok? ==> OpcodeByte(r.value.0) == data[0] && r.value.1 == data[1..]
    ensures r.Err? ==> r.error == InvalidInstructionData
  {
    if |data| == 0 then Err(InvalidInstructionData)
    else
      var rest := data[1..];
      match data[0]
      case 0 => Ok((Transfer, rest))
      case 1 => Ok((Mint, rest))
      case 2 => Ok((Burn, rest))
      case 3 => Ok((Initialize, rest))
      case _ => Err(InvalidInstructionData)
  }

  /** Every opcode's byte, followed by any payload, decodes to that opcode and payload. */
  lemma DecodeEncoded(op: Opcode, payload: seq<byte>)
    ensures DecodeInstruction([OpcodeByte(op)] + payload) == Ok((op, payload))
  {
    assert ([OpcodeByte(op)] + payload)[1..] == payload;
  }

  /** The arguments of Initialize. */
  datatype InitArgs = InitArgs(admin: Pubkey, maxSupply: u64)

  const INIT_PAYLOAD_LEN: nat := 40

  /** The Initialize payload: the admin key in bytes 0..32 and max_supply as
      the little-endian value of bytes 32..40. A shorter payload is
      `InvalidInstructionData`; bytes after the 40th are not looked at. */
  function ParseInitialize(payload: seq<byte>): (r: Result<InitArgs>)
    ensures r.Ok? <==> |payload| >= INIT_PAYLOAD_LEN
    ensures r.Ok? ==> r.value.admin == payload[..32] && r.value.maxSupply == LeValue(payload[32..40])
    ensures r.Err? ==> r.error == InvalidInstructionData
  {
    if |payload| < INIT_PAYLOAD_LEN then Err(InvalidInstructionData)
    else
      var maxSupply := U64FromLe(payload[32..40]);
      Ok(InitArgs(payload[..32], maxSupply.value))
  }

  /** An encoded key and supply parse back to themselves, whatever follows them. */
  lemma ParseInitializeEncoded(admin: Pubkey, maxSupply: u64, trailing: seq<byte>)
    ensures ParseInitialize(admin + U64ToLe(maxSupply) + trailing) == Ok(InitArgs(admin, maxSupply))
  {
    var payload := admin + U64ToLe(maxSupply) + trailing;
    assert payload[..32] == admin;
    assert payload[32..40] == U64ToLe(maxSupply);
  }

  /** The instruction a client sends for Transfer, Mint or Burn of `amount`. */
  function AmountInstruction(op: Opcode, amount: u64): seq<byte>
  {
    [OpcodeByte(op)] + U64ToLe(amount)
  }

  /** The instruction a client sends for Initialize. */
  function InitializeInstruction(admin: Pubkey, maxSupply: u64): seq<byte>
  {
    [OpcodeByte(Initialize)] + admin + U64ToLe(maxSupply)
  }

  /** An encoded Transfer, Mint or Burn decodes to its opcode and the amount's 8 bytes. */
  lemma {:induction false} DecodeAmountInstruction(op: Opcode, amount: u64)
    ensures DecodeInstruction(AmountInstruction(op, amount)) == Ok((op, U64ToLe(amount)))
  {
    DecodeEncoded(op, U64ToLe(amount));
  }

  /** An encoded Initialize decodes to its opcode and a payload that parses back
      to the key and supply it was built from. */
  lemma {:induction false} DecodeInitializeInstruction(admin: Pubkey, maxSupply: u64)
    ensures DecodeInstruction(InitializeInstruction(admin, maxSupply)) == Ok((Initialize, admin + U64ToLe(maxSupply)))
    ensures ParseInitialize(admin + U64ToLe(maxSupply)) == Ok(InitArgs(admin, maxSupply))
  {
    assert InitializeInstruction(admin, maxSupply) == [OpcodeByte(Initialize)] + (admin + U64ToLe(maxSupply));
    DecodeEncoded(Initialize, admin + U64ToLe(maxSupply));
    ParseInitializeEncoded(admin, maxSupply, []);
    assert admin + U64ToLe(maxSupply) + [] == admin + U64ToLe(maxSupply);
  }

  /** What a successful instruction does: hand a request to the token program,
      or write a configuration record into the first account. */
  datatype Effect = Delegate(request: LedgerRequest) | StoreConfig(config: TokenConfig)
}
