/**
 Messages and transactions of the bridge, and the deterministic outside functions it
 consults: codecs, hashing, the policy engine, the identity-to-role mapping and cryptography.
 */
module Deployment {
  import opened Common
  import opened EnvelopeAuthentication
  import AuditChain

  const PLATFORM_ADMIN := "platform_admin"
  const DEFAULT_BLOCKHASH: Bytes := ZEROS
  const DEFAULT_SIGNATURE: Signature := "1111111111111111111111111111111111111111111111111111111111111111"

  /** The part of a Solana message that signing and policy look at. */
  datatype Message = Message(
    numRequiredSignatures: nat, accountKeys: seq<Bytes>, recentBlockhash: Bytes, instructions: seq<Bytes>)

  datatype Transaction = Transaction(signatures: seq<Signature>, message: Message)

  /** A (meter, window start) pair: the on-chain identity of one generation mint. */
  datatype Window = Window(meterId: Bytes, windowStartMs: int)

  datatype Body =
    | SubmitTx(serializedTx: Bytes, keyId: string)
    | MintEnergy(recipientWallet: string, energyKwh: real, window: Window)

  /** A `chain.tx.submit` or `chain.tx.mint` message. */
  datatype Envelope = Envelope(
    correlationId: string, idempotencyKey: string, serviceIdentity: string,
    createdAtMs: nat, auth: Option<EnvelopeAuth>, body: Body)

  /** A `chain.tx.cancel` message. */
  datatype CancelEnvelope = CancelEnvelope(
    correlationId: string, serviceIdentity: string, createdAtMs: nat, auth: Option<EnvelopeAuth>)

  datatype Role = Admin | AggregatorBridge | MeterService | OtherService | Unknown

  datatype Deployment = Deployment(
    crypto: Crypto,
    authPolicy: NatsAuthPolicy,
    roleOf: string -> Role,
    requireAny: (Role, seq<Role>) -> bool,
    canonicalBytes: Envelope -> Bytes,
    canonicalCancelBytes: CancelEnvelope -> Bytes,
    decode: Bytes -> Option<Transaction>,
    policyObjection: (string, Transaction) -> Option<string>,
    messageData: Message -> Bytes,
    presignDisabled: bool,
    transitKeyName: string,
    auditEncoding: AuditChain.Encoding)
}
