/**
 * The rule chain that decides, for each polled signature, whether its
 * transaction is a payment to the merchant, and the step that turns the
 * list of signatures into the list of matched payments.
 *
 * There are two modes. With no associated token account the merchant is
 * paid in SOL, by a system-program transfer to the recipient. With one,
 * the merchant is paid in the token, by an spl-token transfer to that
 * account.
 */
module Classification {
  import opened JsBuiltins
  import opened BigNumbers
  import opened Chain

  /** `MAX_CONFIRMATIONS`: what a finalized transaction reports as its confirmation count. */
  const MaxConfirmations: int := 32

  /** The normalised record the provider publishes for a matched payment. */
  datatype Transaction = Transaction(
    feePayer: Address,
    signature: Signature,
    amount: Decimal,
    timestamp: int,
    error: Option<string>,
    status: Commitment,
    confirmations: int)

  /** Which early `return` of the rule chain dropped a signature. */
  datatype Rejection =
    | MissingMetaOrStatus
    | MissingTimeOrStatus
    | NotSingleInstruction
    | NotParsed
    | WrongProgram
    | WrongDestination
    | SelfTransfer
    | AccountNotFound
    | MissingTokenBalance
    | NegativeAmount

  /**
   * The outcome of the rule chain for one signature. Fault is the callback
   * throwing a TypeError on a property read of `undefined`; it aborts the
   * whole `setTransactions` call.
   */
  datatype Verdict = Accepted(tx: Transaction) | Rejected(reason: Rejection) | Fault

  /** The recipient's balances before and after, or the rule of a mode-specific check that failed. */
  datatype Balances = Balances(pre: Decimal, post: Decimal) | Unmatched(reason: Rejection)

  /** `info?.destination`. */
  function DestinationOf(p: ParsedPayload): Option<string> {
    if p.info.Some? then p.info.value.destination else None
  }

  /** `info.source`. */
  function SourceOf(p: ParsedPayload): Option<string> {
    if p.info.Some? then p.info.value.source else None
  }

  predicate IsSystemTransfer(program: string, p: ParsedPayload) {
    program == "system" && p.instructionType == Some("transfer")
  }

  predicate IsTokenTransfer(program: string, p: ParsedPayload) {
    program == "spl-token" && (p.instructionType == Some("transfer") || p.instructionType == Some("transferChecked"))
  }

  /** `new BigNumber(balances[i]).div(LAMPORTS_PER_SOL)`; a missing entry gives NaN. */
  function SolAt(balances: seq<int>, i: int): Decimal {
    FromNumber(if 0 <= i < |balances| then Some(balances[i]) else None).DivBy(LamportsPerSol)
  }

  /** The checks and balances of native mode (lines 147-166). */
  function NativeBalances(t: ParsedTransaction, meta: Meta, program: string, p: ParsedPayload, recipient: Address): Balances {
    if !IsSystemTransfer(program, p) then Unmatched(WrongProgram)
    else if DestinationOf(p) != Some(recipient) then Unmatched(WrongDestination)
    else if SourceOf(p) == Some(recipient) then Unmatched(SelfTransfer)
    else
      var i := FindIndex(t.accountKeys, recipient);
      if i == -1 then Unmatched(AccountNotFound)
      else Balances(SolAt(meta.preBalances, i), SolAt(meta.postBalances, i))
  }

  /** The checks and balances of token mode (lines 167-195). */
  function TokenBalances(t: ParsedTransaction, meta: Meta, program: string, p: ParsedPayload, ata: Address): Balances {
    if !IsTokenTransfer(program, p) then Unmatched(WrongProgram)
    else if DestinationOf(p) != Some(ata) then Unmatched(WrongDestination)
    else if SourceOf(p) == Some(ata) then Unmatched(SelfTransfer)
    else
      var i := FindIndex(t.accountKeys, ata);
      if i == -1 then Unmatched(AccountNotFound)
      else
        var pre := FindBalance(meta.preTokenBalances, i);
        if pre.None? || !TruthyText(pre.value.uiAmountString) then Unmatched(MissingTokenBalance)
        else
          var post := FindBalance(meta.postTokenBalances, i);
          if post.None? || !TruthyText(post.value.uiAmountString) then Unmatched(MissingTokenBalance)
          else Balances(ParseDecimal(pre.value.uiAmountString.value), ParseDecimal(post.value.uiAmountString.value))
  }

  /** `status === 'finalized' ? MAX_CONFIRMATIONS : (signatureStatus.confirmations || 0)`. */
  function ConfirmationsOf(st: SignatureStatus, status: Commitment): int {
    if status == Finalized then MaxConfirmations else st.confirmations.GetOr(0)
  }

  /**
   * The map callback of lines 123-215: the verdict for one signature, given
   * the transaction and status fetched for it (None for `null` or a missing
   * array entry), the recipient, and the associated token account if any.
   */
  function Classify(signature: Signature, ptx: Option<ParsedTransaction>, status: Option<SignatureStatus>,
                    recipient: Address, ata: Option<Address>): (v: Verdict)
    // the rules every accepted signature passed, whatever the mode
    ensures v.Accepted? ==>
      && ptx.Some? && ptx.value.meta.Some? && status.Some?
      && |ptx.value.accountKeys| > 0
      && Truthy(ptx.value.blockTime) && status.value.confirmationStatus.Some?
      && |ptx.value.instructions| == 1
      && ptx.value.instructions[0].Parsed? && ptx.value.instructions[0].parsed.Some?
    // the fields of the record
    ensures v.Accepted? ==>
      && v.tx.signature == signature
      && v.tx.feePayer == ptx.value.accountKeys[0]
      && v.tx.timestamp == ptx.value.blockTime.value
      && v.tx.error == ptx.value.meta.value.err
      && v.tx.status == status.value.confirmationStatus.value
      && v.tx.confirmations ==
           (if v.tx.status == Finalized then MaxConfirmations else status.value.confirmations.GetOr(0))
    // no outgoing or negative amount is ever published
    ensures v.Accepted? ==> v.tx.amount.NaN? || v.tx.amount.value >= 0.0
    // native mode: a system transfer into the recipient, priced by its lamport delta
    ensures v.Accepted? && ata.None? ==>
      var keys, ins, meta := ptx.value.accountKeys, ptx.value.instructions[0], ptx.value.meta.value;
      var i := FindIndex(keys, recipient);
      && IsSystemTransfer(ins.program, ins.parsed.value)
      && DestinationOf(ins.parsed.value) == Some(recipient)
      && SourceOf(ins.parsed.value) != Some(recipient)
      && recipient in keys
      && (i < |meta.preBalances| && i < |meta.postBalances| ==>
            v.tx.amount == Finite((meta.postBalances[i] - meta.preBalances[i]) as real / LamportsPerSol as real))
      && (i >= |meta.preBalances| || i >= |meta.postBalances| ==> v.tx.amount.NaN?)
    // token mode: a token transfer into the associated account, priced by its ui amount delta
    ensures v.Accepted? && ata.Some? ==>
      var keys, ins, meta := ptx.value.accountKeys, ptx.value.instructions[0], ptx.value.meta.value;
      var i := FindIndex(keys, ata.value);
      var pre, post := FindBalance(meta.preTokenBalances, i), FindBalance(meta.postTokenBalances, i);
      && IsTokenTransfer(ins.program, ins.parsed.value)
      && DestinationOf(ins.parsed.value) == Some(ata.value)
      && SourceOf(ins.parsed.value) != Some(ata.value)
      && ata.value in keys
      && pre.Some? && TruthyText(pre.value.uiAmountString)
      && post.Some? && TruthyText(post.value.uiAmountString)
      && v.tx.amount == ParseDecimal(post.value.uiAmountString.value).Minus(ParseDecimal(pre.value.uiAmountString.value))
    // the callback throws on a missing fee payer, and on a null `parsed` payload once the earlier guards passed
    ensures ptx.Some? && ptx.value.meta.Some? && status.Some? && |ptx.value.accountKeys| == 0 ==> v.Fault?
    ensures (&& ptx.Some? && ptx.value.meta.Some? && status.Some?
             && Truthy(ptx.value.blockTime) && status.value.confirmationStatus.Some?
             && |ptx.value.instructions| == 1 && ptx.value.instructions[0].Parsed?
             && ptx.value.instructions[0].parsed.None?) ==> v.Fault?
    // and on nothing else
    ensures v.Fault? ==>
      && ptx.Some? && ptx.value.meta.Some? && status.Some?
      && (|ptx.value.accountKeys| == 0 ||
          (|ptx.value.instructions| == 1 && ptx.value.instructions[0].Parsed? && ptx.value.instructions[0].parsed.None?))
  {
    if ptx.None? || ptx.value.meta.None? || status.None? then Rejected(MissingMetaOrStatus)
    else
      var t, meta, st := ptx.value, ptx.value.meta.value, status.value;
      if |t.accountKeys| == 0 then Fault
      else if !Truthy(t.blockTime) || st.confirmationStatus.None? then Rejected(MissingTimeOrStatus)
      else if |t.instructions| != 1 then Rejected(NotSingleInstruction)
      else if !t.instructions[0].Parsed? then Rejected(NotParsed)
      else if t.instructions[0].parsed.None? then Fault
      else
        var program, payload := t.instructions[0].program, t.instructions[0].parsed.value;
        var balances :=
          if ata.None? then NativeBalances(t, meta, program, payload, recipient)
          else TokenBalances(t, meta, program, payload, ata.value);
        match balances
        case Unmatched(reason) => Rejected(reason)
        case Balances(pre, post) =>
          if post.Lt(pre) then Rejected(NegativeAmount)
          else
            var commitment := st.confirmationStatus.value;
            Accepted(Transaction(t.accountKeys[0], signature, post.Minus(pre), t.blockTime.value, meta.err,
                                 commitment, ConfirmationsOf(st, commitment)))
  }

  /**
   * The converse of the native-mode contract: a single parsed system
   * transfer into the recipient, from someone else, whose balance did not
   * drop, is accepted with these fields. The status may be any of the three
   * commitments, so a `processed` signature is kept too.
   */
  lemma NativeTransferAccepted(signature: Signature, t: ParsedTransaction, st: SignatureStatus, recipient: Address)
    requires t.meta.Some? && |t.accountKeys| > 0 && Truthy(t.blockTime) && st.confirmationStatus.Some?
    requires |t.instructions| == 1 && t.instructions[0].Parsed? && t.instructions[0].parsed.Some?
    requires IsSystemTransfer(t.instructions[0].program, t.instructions[0].parsed.value)
    requires DestinationOf(t.instructions[0].parsed.value) == Some(recipient)
    requires SourceOf(t.instructions[0].parsed.value) != Some(recipient)
    requires recipient in t.accountKeys
    requires FindIndex(t.accountKeys, recipient) < |t.meta.value.preBalances|
    requires FindIndex(t.accountKeys, recipient) < |t.meta.value.postBalances|
    requires var i := FindIndex(t.accountKeys, recipient);
             t.meta.value.preBalances[i] <= t.meta.value.postBalances[i]
    ensures var i, meta := FindIndex(t.accountKeys, recipient), t.meta.value;
            var commitment := st.confirmationStatus.value;
            Classify(signature, Some(t), Some(st), recipient, None) ==
              Accepted(Transaction(t.accountKeys[0], signature,
                                   Finite((meta.postBalances[i] - meta.preBalances[i]) as real / LamportsPerSol as real),
                                   t.blockTime.value, meta.err, commitment, ConfirmationsOf(st, commitment)))
  {
  }

  /**
   * The converse of the token-mode contract: a single parsed token transfer
   * into the associated account, from another account, with both ui
   * amounts present and not decreasing, is accepted with these fields.
   */
  lemma TokenTransferAccepted(signature: Signature, t: ParsedTransaction, st: SignatureStatus,
                              recipient: Address, ata: Address)
    requires t.meta.Some? && |t.accountKeys| > 0 && Truthy(t.blockTime) && st.confirmationStatus.Some?
    requires |t.instructions| == 1 && t.instructions[0].Parsed? && t.instructions[0].parsed.Some?
    requires IsTokenTransfer(t.instructions[0].program, t.instructions[0].parsed.value)
    requires DestinationOf(t.instructions[0].parsed.value) == Some(ata)
    requires SourceOf(t.instructions[0].parsed.value) != Some(ata)
    requires ata in t.accountKeys
    requires var i := FindIndex(t.accountKeys, ata);
             var pre, post := FindBalance(t.meta.value.preTokenBalances, i), FindBalance(t.meta.value.postTokenBalances, i);
             && pre.Some? && TruthyText(pre.value.uiAmountString)
             && post.Some? && TruthyText(post.value.uiAmountString)
             && !ParseDecimal(post.value.uiAmountString.value).Lt(ParseDecimal(pre.value.uiAmountString.value))
    ensures var i, meta := FindIndex(t.accountKeys, ata), t.meta.value;
            var pre, post := FindBalance(meta.preTokenBalances, i), FindBalance(meta.postTokenBalances, i);
            var commitment := st.confirmationStatus.value;
            Classify(signature, Some(t), Some(st), recipient, Some(ata)) ==
              Accepted(Transaction(t.accountKeys[0], signature,
                                   ParseDecimal(post.value.uiAmountString.value).Minus(ParseDecimal(pre.value.uiAmountString.value)),
                                   t.blockTime.value, meta.err, commitment, ConfirmationsOf(st, commitment)))
  {
  }

  /**
   * Native mode: when the recipient's lamport balance went down, the
   * signature is dropped, whatever else the transaction holds.
   */
  lemma NativeNegativeDeltaRejected(signature: Signature, t: ParsedTransaction, status: Option<SignatureStatus>,
                                    recipient: Address)
    requires t.meta.Some?
    requires var i := FindIndex(t.accountKeys, recipient);
             && 0 <= i < |t.meta.value.preBalances| && i < |t.meta.value.postBalances|
             && t.meta.value.postBalances[i] < t.meta.value.preBalances[i]
    ensures !Classify(signature, Some(t), status, recipient, None).Accepted?
  {
  }

  /**
   * Token mode: when the token account's ui amount went down, the
   * signature is dropped, whatever else the transaction holds.
   */
  lemma TokenNegativeDeltaRejected(signature: Signature, t: ParsedTransaction, status: Option<SignatureStatus>,
                                   recipient: Address, ata: Address)
    requires t.meta.Some?
    requires var i := FindIndex(t.accountKeys, ata);
             var pre, post := FindBalance(t.meta.value.preTokenBalances, i), FindBalance(t.meta.value.postTokenBalances, i);
             && pre.Some? && pre.value.uiAmountString.Some?
             && post.Some? && post.value.uiAmountString.Some?
             && ParseDecimal(post.value.uiAmountString.value).Lt(ParseDecimal(pre.value.uiAmountString.value))
    ensures !Classify(signature, Some(t), status, recipient, Some(ata)).Accepted?
  {
  }

  /** 1 SOL before and 2.5 SOL after, in lamports, is a payment of exactly 1.5 SOL. */
  lemma NativeAmountExample(t: ParsedTransaction, st: SignatureStatus, recipient: Address)
    requires t.meta.Some? && |t.accountKeys| > 0 && Truthy(t.blockTime) && st.confirmationStatus.Some?
    requires |t.instructions| == 1 && t.instructions[0].Parsed? && t.instructions[0].parsed.Some?
    requires IsSystemTransfer(t.instructions[0].program, t.instructions[0].parsed.value)
    requires DestinationOf(t.instructions[0].parsed.value) == Some(recipient)
    requires SourceOf(t.instructions[0].parsed.value) != Some(recipient)
    requires recipient in t.accountKeys
    requires var i := FindIndex(t.accountKeys, recipient);
             && i < |t.meta.value.preBalances| && t.meta.value.preBalances[i] == 1_000_000_000
             && i < |t.meta.value.postBalances| && t.meta.value.postBalances[i] == 2_500_000_000
    ensures var v := Classify("S", Some(t), Some(st), recipient, None);
            v.Accepted? && v.tx.amount == Finite(1.5)
  {
    NativeTransferAccepted("S", t, st, recipient);
  }

  /** A token balance going from "10.0" to "15.25" is a payment of exactly 5.25 tokens, with no lamport division. */
  lemma TokenAmountExample(t: ParsedTransaction, st: SignatureStatus, recipient: Address, ata: Address)
    requires t.meta.Some? && |t.accountKeys| > 0 && Truthy(t.blockTime) && st.confirmationStatus.Some?
    requires |t.instructions| == 1 && t.instructions[0].Parsed? && t.instructions[0].parsed.Some?
    requires IsTokenTransfer(t.instructions[0].program, t.instructions[0].parsed.value)
    requires DestinationOf(t.instructions[0].parsed.value) == Some(ata)
    requires SourceOf(t.instructions[0].parsed.value) != Some(ata)
    requires ata in t.accountKeys
    requires var i := FindIndex(t.accountKeys, ata);
             && FindBalance(t.meta.value.preTokenBalances, i) == Some(TokenBalance(i, Some("10.0")))
             && FindBalance(t.meta.value.postTokenBalances, i) == Some(TokenBalance(i, Some("15.25")))
    ensures var v := Classify("S", Some(t), Some(st), recipient, Some(ata));
            v.Accepted? && v.tx.amount == Finite(5.25)
  {
    UiAmountDelta();
    TokenTransferAccepted("S", t, st, recipient, ata);
  }

  /**
   * A confirmed payment of 2 SOL to R in signature S1 is published as one
   * record with every field taken from the transaction and its status.
   */
  lemma EndToEndExample()
    ensures
      var ins := Parsed("system", Some(ParsedPayload(Some("transfer"), Some(TransferInfo(Some("P"), Some("R"))))));
      var meta := Meta(None, [5_000_000_000, 0], [2_999_995_000, 2_000_000_000], None, None);
      var t := ParsedTransaction(Some(1700000000), Some(meta), ["P", "R"], [ins]);
      var st := SignatureStatus(Some(3), Some(Confirmed));
      ClassifyBatch(["S1"], [Some(t)], [Some(st)], "R", None) ==
        Some([Transaction("P", "S1", Finite(2.0), 1700000000, None, Confirmed, 3)])
  {
    var ins := Parsed("system", Some(ParsedPayload(Some("transfer"), Some(TransferInfo(Some("P"), Some("R"))))));
    var meta := Meta(None, [5_000_000_000, 0], [2_999_995_000, 2_000_000_000], None, None);
    var t := ParsedTransaction(Some(1700000000), Some(meta), ["P", "R"], [ins]);
    var st := SignatureStatus(Some(3), Some(Confirmed));
    assert FindIndex(t.accountKeys, "R") == 1 by {
      assert "P" != "R";
    }
    var v := Classify("S1", Some(t), Some(st), "R", None);
    assert v == Accepted(Transaction("P", "S1", Finite(2.0), 1700000000, None, Confirmed, 3));
    var vs := Verdicts(["S1"], [Some(t)], [Some(st)], "R", None);
    assert vs == [v];
    assert !AnyFault(vs);
    assert vs[..0] == [];
    assert Survivors(vs) == [v.tx];
    assert ClassifyBatch(["S1"], [Some(t)], [Some(st)], "R", None) == Some(Survivors(vs));
  }

  /** `signatures.map(callback)`: one verdict per signature, in order. */
  function Verdicts(signatures: seq<Signature>, parsed: seq<Option<ParsedTransaction>>,
                    statuses: seq<Option<SignatureStatus>>, recipient: Address, ata: Option<Address>): (vs: seq<Verdict>)
    ensures |vs| == |signatures|
    ensures forall i | 0 <= i < |vs| && vs[i].Accepted? :: vs[i].tx.signature == signatures[i]
  {
    seq(|signatures|, i requires 0 <= i < |signatures| =>
      Classify(signatures[i], At(parsed, i), At(statuses, i), recipient, ata))
  }

  /** `.filter(transaction => !!transaction)`: the accepted records, in order. */
  function Survivors(vs: seq<Verdict>): (out: seq<Transaction>)
    ensures |out| <= |vs|
    ensures forall k | 0 <= k < |out| :: Accepted(out[k]) in vs
  {
    if vs == [] then []
    else Survivors(vs[..|vs| - 1]) + (if vs[|vs| - 1].Accepted? then [vs[|vs| - 1].tx] else [])
  }

  /** The positions whose record survives the filter, in order. */
  function SurvivorPositions(vs: seq<Verdict>): seq<nat> {
    if vs == [] then []
    else SurvivorPositions(vs[..|vs| - 1]) + (if vs[|vs| - 1].Accepted? then [|vs| - 1] else [])
  }

  predicate AnyFault(vs: seq<Verdict>) {
    exists i | 0 <= i < |vs| :: vs[i].Fault?
  }

  /**
   * The list handed to `setTransactions` (lines 121-217), or None when the
   * callback throws for some signature and the list is never built.
   */
  function ClassifyBatch(signatures: seq<Signature>, parsed: seq<Option<ParsedTransaction>>,
                         statuses: seq<Option<SignatureStatus>>, recipient: Address, ata: Option<Address>)
    : (r: Option<seq<Transaction>>)
    ensures r.Some? ==> |r.value| <= |signatures|
    ensures r.Some? ==> forall k | 0 <= k < |r.value| :: r.value[k].signature in signatures
    ensures r.None? ==> exists i | 0 <= i < |signatures| ::
                          Classify(signatures[i], At(parsed, i), At(statuses, i), recipient, ata).Fault?
  {
    var vs := Verdicts(signatures, parsed, statuses, recipient, ata);
    if AnyFault(vs) then None else Some(Survivors(vs))
  }

  /**
   * The filter keeps exactly the accepted verdicts, in their order: the
   * k-th survivor is the record of the k-th accepted position, the
   * positions increase, and no accepted position is skipped.
   */
  lemma SurvivorsInOrder(vs: seq<Verdict>)
    ensures |Survivors(vs)| == |SurvivorPositions(vs)| <= |vs|
    ensures forall k | 0 <= k < |SurvivorPositions(vs)| ::
              SurvivorPositions(vs)[k] < |vs| && vs[SurvivorPositions(vs)[k]] == Accepted(Survivors(vs)[k])
    ensures forall k, l | 0 <= k < l < |SurvivorPositions(vs)| :: SurvivorPositions(vs)[k] < SurvivorPositions(vs)[l]
    ensures forall i | 0 <= i < |vs| && vs[i].Accepted? :: i in SurvivorPositions(vs)
  {
    SurvivorsAligned(vs);
    SurvivorPositionsIncrease(vs);
    SurvivorPositionsComplete(vs);
  }

  /** The k-th survivor is the record of the verdict at the k-th surviving position. */
  lemma {:induction false} SurvivorsAligned(vs: seq<Verdict>)
    ensures |Survivors(vs)| == |SurvivorPositions(vs)| <= |vs|
    ensures forall k | 0 <= k < |SurvivorPositions(vs)| ::
              SurvivorPositions(vs)[k] < |vs| && vs[SurvivorPositions(vs)[k]] == Accepted(Survivors(vs)[k])
  {
    if vs != [] {
      var n := |vs| - 1;
      var init, last := vs[..n], vs[n];
      SurvivorsAligned(init);
      var S, P := Survivors(init), SurvivorPositions(init);
      var S', P' := Survivors(vs), SurvivorPositions(vs);
      assert S' == S + (if last.Accepted? then [last.tx] else []);
      assert P' == P + (if last.Accepted? then [n] else []);
      forall k | 0 <= k < |P'|
        ensures P'[k] < |vs| && vs[P'[k]] == Accepted(S'[k])
      {
        if k < |P| {
          assert P'[k] == P[k] && S'[k] == S[k];
          assert init[P[k]] == vs[P[k]];
        } else {
          assert P'[k] == n && S'[k] == last.tx;
        }
      }
    }
  }

  /** Every surviving position is below the length of the verdict list. */
  lemma {:induction false} SurvivorPositionsBounded(vs: seq<Verdict>)
    ensures forall k | 0 <= k < |SurvivorPositions(vs)| :: SurvivorPositions(vs)[k] < |vs|
  {
    if vs != [] {
      SurvivorPositionsBounded(vs[..|vs| - 1]);
    }
  }

  /** The surviving positions strictly increase. */
  lemma {:induction false} SurvivorPositionsIncrease(vs: seq<Verdict>)
    ensures forall k, l | 0 <= k < l < |SurvivorPositions(vs)| :: SurvivorPositions(vs)[k] < SurvivorPositions(vs)[l]
  {
    if vs != [] {
      var n := |vs| - 1;
      var init := vs[..n];
      SurvivorPositionsIncrease(init);
      SurvivorPositionsBounded(init);
      var P, P' := SurvivorPositions(init), SurvivorPositions(vs);
      assert P' == P + (if vs[n].Accepted? then [n] else []);
      forall k, l | 0 <= k < l < |P'|
        ensures P'[k] < P'[l]
      {
        assert P'[k] == P[k];
        if l < |P| {
          assert P'[l] == P[l];
        }
      }
    }
  }

  /** No accepted position is missing from the surviving positions. */
  lemma {:induction false} SurvivorPositionsComplete(vs: seq<Verdict>)
    ensures forall i | 0 <= i < |vs| && vs[i].Accepted? :: i in SurvivorPositions(vs)
  {
    if vs != [] {
      var n := |vs| - 1;
      var init := vs[..n];
      SurvivorPositionsComplete(init);
      var P, P' := SurvivorPositions(init), SurvivorPositions(vs);
      assert P' == P + (if vs[n].Accepted? then [n] else []);
      forall i | 0 <= i < |vs| && vs[i].Accepted?
        ensures i in P'
      {
        if i < n {
          assert init[i] == vs[i];
          assert i in P;
        }
      }
    }
  }

  /** A record is published exactly when some signature's verdict accepted it. */
  lemma SurvivorsMembership(vs: seq<Verdict>, t: Transaction)
    ensures t in Survivors(vs) <==> exists i | 0 <= i < |vs| :: vs[i] == Accepted(t)
  {
    SurvivorsInOrder(vs);
    var ps := SurvivorPositions(vs);
    if t in Survivors(vs) {
      var k :| 0 <= k < |Survivors(vs)| && Survivors(vs)[k] == t;
      assert vs[ps[k]] == Accepted(t);
    }
    if i :| 0 <= i < |vs| && vs[i] == Accepted(t) {
      assert i in ps;
      var k :| 0 <= k < |ps| && ps[k] == i;
      assert Accepted(Survivors(vs)[k]) == Accepted(t);
    }
  }

  /**
   * The published list is the signatures filter-mapped in order: record k
   * belongs to signature `signatures[p[k]]` for increasing positions p,
   * carries that signature, and every signature that was accepted appears.
   */
  lemma BatchFollowsSignatures(signatures: seq<Signature>, parsed: seq<Option<ParsedTransaction>>,
                               statuses: seq<Option<SignatureStatus>>, recipient: Address, ata: Option<Address>)
    requires ClassifyBatch(signatures, parsed, statuses, recipient, ata).Some?
    ensures var out := ClassifyBatch(signatures, parsed, statuses, recipient, ata).value;
            var p := SurvivorPositions(Verdicts(signatures, parsed, statuses, recipient, ata));
            && |out| == |p| <= |signatures|
            && (forall k | 0 <= k < |p| ::
                  && p[k] < |signatures|
                  && out[k].signature == signatures[p[k]]
                  && Classify(signatures[p[k]], At(parsed, p[k]), At(statuses, p[k]), recipient, ata) == Accepted(out[k]))
            && (forall k, l | 0 <= k < l < |p| :: p[k] < p[l])
            && (forall i | 0 <= i < |signatures| ::
                  Classify(signatures[i], At(parsed, i), At(statuses, i), recipient, ata).Accepted? ==> i in p)
  {
    var vs := Verdicts(signatures, parsed, statuses, recipient, ata);
    SurvivorsInOrder(vs);
  }

  /** With distinct input signatures, no signature is published twice. */
  lemma BatchOneRecordPerSignature(signatures: seq<Signature>, parsed: seq<Option<ParsedTransaction>>,
                                   statuses: seq<Option<SignatureStatus>>, recipient: Address, ata: Option<Address>)
    requires forall i, j | 0 <= i < j < |signatures| :: signatures[i] != signatures[j]
    requires ClassifyBatch(signatures, parsed, statuses, recipient, ata).Some?
    ensures var out := ClassifyBatch(signatures, parsed, statuses, recipient, ata).value;
            forall k, l | 0 <= k < l < |out| :: out[k].signature != out[l].signature
  {
    BatchFollowsSignatures(signatures, parsed, statuses, recipient, ata);
  }

  /** One throwing callback discards the whole batch; otherwise a list is always produced. */
  lemma BatchFaultAborts(signatures: seq<Signature>, parsed: seq<Option<ParsedTransaction>>,
                         statuses: seq<Option<SignatureStatus>>, recipient: Address, ata: Option<Address>)
    ensures ClassifyBatch(signatures, parsed, statuses, recipient, ata).None? <==>
            exists i | 0 <= i < |signatures| :: Classify(signatures[i], At(parsed, i), At(statuses, i), recipient, ata).Fault?
  {
    var vs := Verdicts(signatures, parsed, statuses, recipient, ata);
    if AnyFault(vs) {
      var i :| 0 <= i < |vs| && vs[i].Fault?;
      assert Classify(signatures[i], At(parsed, i), At(statuses, i), recipient, ata).Fault?;
    }
    if i :| 0 <= i < |signatures| && Classify(signatures[i], At(parsed, i), At(statuses, i), recipient, ata).Fault? {
      assert vs[i].Fault?;
    }
  }
}
