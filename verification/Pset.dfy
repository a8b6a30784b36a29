/** The decoded fields of a partially signed Elements transaction that the wallet
    reads (`elements::pset`), and the foreign cryptography it calls. */
module Pset {
  import opened Common

  type AssetId = Bytes32
  type Script = Bytes

  /** `elements::confidential::Asset` and `Value`. */
  datatype AssetField = NullAsset | ExplicitAsset(id: AssetId) | ConfidentialAsset(generator: Bytes)
  datatype ValueField = NullValue | ExplicitValue(amount: u64) | ConfidentialValue(commitment: Bytes)

  datatype TxOut = TxOut(asset: AssetField, value: ValueField, script: Script)
  datatype OutPoint = OutPoint(txid: Bytes32, vout: u32)

  datatype Input = Input(
    prevout: OutPoint,
    witnessUtxo: Option<TxOut>,
    asset: Option<AssetId>,
    amount: Option<u64>,
    blindAssetProof: Option<Bytes>,
    blindValueProof: Option<Bytes>,
    issuanceValueAmount: Option<u64>,
    blindedIssuance: Option<byte>,
    issuanceInflationKeys: Option<u64>,
    issuanceBlindingNonce: Option<Bytes32>,
    issuanceAssetEntropy: Option<Bytes32>,
    finalScriptWitness: Option<seq<Bytes>>)

  datatype Output = Output(
    script: Script,
    asset: Option<AssetId>,
    amount: Option<u64>,
    assetComm: Option<Bytes>,
    amountComm: Option<Bytes>,
    blindAssetProof: Option<Bytes>,
    blindValueProof: Option<Bytes>)

  datatype Template = Template(inputs: seq<Input>, outputs: seq<Output>)

  const ZERO_TWEAK: Bytes32 := seq(32, _ => 0)

  /** Proof verification and the issued asset id, as the curve library computes them. */
  datatype Crypto = Crypto(
    assetProofVerifies: (Bytes, AssetId, Bytes) -> bool,
    valueProofVerifies: (Bytes, u64, Bytes, Bytes) -> bool,
    issuedAsset: (OutPoint, Bytes32) -> AssetId)
}
