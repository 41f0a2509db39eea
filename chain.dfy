/**
 * The network's records as the classifier reads them: a parsed confirmed
 * transaction, its metadata and balances, and a signature status. Fields
 * the classifier does not read are left out. Addresses and signatures are
 * their base-58 text, so comparing two public keys is comparing strings.
 */
module Chain {
  import opened JsBuiltins

  type Address = string
  type Signature = string

  /** Lamports in one SOL (`LAMPORTS_PER_SOL` of @solana/web3.js). */
  const LamportsPerSol: nat := 1_000_000_000

  datatype Commitment = Processed | Confirmed | Finalized

  /** `confirmations` is `null` once the block is rooted; `confirmationStatus` may be absent. */
  datatype SignatureStatus = SignatureStatus(confirmations: Option<int>, confirmationStatus: Option<Commitment>)

  /** The `info` object of a parsed transfer instruction. */
  datatype TransferInfo = TransferInfo(source: Option<string>, destination: Option<string>)

  /**
   * The `parsed` payload of an instruction. A payload that is not an object
   * (the memo program yields a bare string) has neither a `type` nor an `info`.
   */
  datatype ParsedPayload = ParsedPayload(instructionType: Option<string>, info: Option<TransferInfo>)

  /**
   * An instruction of the transaction's message: parsed by a known program
   * (`'program' in instruction`), or left as raw account indices and data.
   * `parsed` is None when the node sent `null` in its place.
   */
  datatype Instruction =
    | Parsed(program: string, parsed: Option<ParsedPayload>)
    | PartiallyDecoded

  /** One entry of `preTokenBalances` / `postTokenBalances`. */
  datatype TokenBalance = TokenBalance(accountIndex: int, uiAmountString: Option<string>)

  /** `meta`: the on-chain error and the balances before and after. */
  datatype Meta = Meta(
    err: Option<string>,
    preBalances: seq<int>,
    postBalances: seq<int>,
    preTokenBalances: Option<seq<TokenBalance>>,
    postTokenBalances: Option<seq<TokenBalance>>)

  datatype ParsedTransaction = ParsedTransaction(
    blockTime: Option<int>,
    meta: Option<Meta>,
    accountKeys: seq<Address>,
    instructions: seq<Instruction>)

  /** A JavaScript number as a condition: absent and 0 are falsy. */
  predicate Truthy(n: Option<int>) {
    n.Some? && n.value != 0
  }

  /** A JavaScript string as a condition: absent and "" are falsy. */
  predicate TruthyText(s: Option<string>) {
    s.Some? && s.value != ""
  }

  /** `balances?.find(x => x.accountIndex === index)`: the first entry for that account. */
  function FindBalance(balances: Option<seq<TokenBalance>>, index: int): (r: Option<TokenBalance>)
    ensures r.Some? ==> balances.Some? && r.value in balances.value && r.value.accountIndex == index
    ensures r.Some? ==> exists k | 0 <= k < |balances.value| :: balances.value[k] == r.value &&
                          forall j | 0 <= j < k :: balances.value[j].accountIndex != index
    ensures r.None? && balances.Some? ==> forall b | b in balances.value :: b.accountIndex != index
  {
    if balances.None? then None
    else
      var k := FirstWithIndex(balances.value, index);
      if k == -1 then None else Some(balances.value[k])
  }

  /** The position of the first entry for that account, or -1. */
  function FirstWithIndex(balances: seq<TokenBalance>, index: int): (k: int)
    ensures -1 <= k < |balances|
    ensures k == -1 ==> forall b | b in balances :: b.accountIndex != index
    ensures 0 <= k ==> balances[k].accountIndex == index
    ensures 0 <= k ==> forall j | 0 <= j < k :: balances[j].accountIndex != index
  {
    if balances == [] then -1
    else if balances[0].accountIndex == index then 0
    else
      var k := FirstWithIndex(balances[1..], index);
      if k == -1 then -1
      else
        assert forall j | 1 <= j < k + 1 :: balances[j] == balances[1..][j - 1];
        k + 1
  }
}
