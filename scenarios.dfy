/**
 * Event sequences driven against a fresh provider, showing what callers
 * can conclude from the provider's specifications alone.
 */
module ProviderScenarios {
  import opened JsBuiltins
  import opened Chain
  import opened Classification
  import opened TransactionsProvider

  /**
   * The deposit address changes while a signature poll is in flight: the
   * response of the old poll lands after the cleanup and is discarded, so
   * the list stays empty, and `loading` is still cleared.
   */
  method StaleSignaturePollIgnored(recipient: Address, ata: Address, fetched: seq<Signature>)
    returns (stored: seq<Signature>, loading: bool)
    ensures stored == [] && !loading
  {
    var p := new Provider();
    var first := p.RunSignatureEffect(recipient);
    var derive := p.RunAddressEffect(Some("mint"), recipient);
    p.AddressDerived(derive.value, ata);
    var second := p.RunSignatureEffect(recipient);
    assert p.sigTarget == ata;
    p.SignaturesFetched(first, fetched);
    stored, loading := p.signatures.items, p.loading;
  }

  /**
   * Two polls that return the same list: the second leaves the very same
   * array object in the cell, so nothing downstream re-runs.
   */
  method EqualPollKeepsArray(recipient: Address, fetched: seq<Signature>)
    returns (stored: seq<Signature>, sameArray: bool)
    ensures stored == fetched && sameArray
  {
    var p := new Provider();
    var first := p.RunSignatureEffect(recipient);
    p.SignaturesFetched(first, fetched);
    var before := p.signatures;
    var second := p.SignatureTick();
    p.SignaturesFetched(second.value, fetched);
    stored, sameArray := p.signatures.items, p.signatures == before;
  }

  /**
   * The recipient changes while a transaction fetch is in flight: that
   * fetch resolves after the effect re-ran and publishes nothing, while the
   * fetch of the new instance publishes the classification for the new
   * recipient.
   */
  method StaleClassificationIgnored(recipient: Address, newRecipient: Address, fetched: seq<Signature>,
                                    parsed: seq<Option<ParsedTransaction>>, statuses: seq<Option<SignatureStatus>>)
    returns (afterStale: seq<Transaction>, afterCurrent: seq<Transaction>)
    requires fetched != []
    ensures afterStale == []
    ensures var batch := ClassifyBatch(fetched, parsed, statuses, newRecipient, None);
            afterCurrent == if batch.Some? then batch.value else []
  {
    var p := new Provider();
    var poll := p.RunSignatureEffect(recipient);
    p.SignaturesFetched(poll, fetched);
    assert p.signatures.items == fetched && p.associatedToken == None && p.transactions == [];
    var stale := p.RunTransactionsEffect(recipient);
    ghost var e := p.txEpoch;
    assert stale.Some? && p.pending[stale.value].epoch == e;
    var current := p.RunTransactionsEffect(newRecipient);
    ghost var r := FetchTransactions(e + 1, fetched, newRecipient, None);
    assert current.Some? && current.value != stale.value;
    assert p.pending[current.value] == r && p.txEpoch == e + 1;
    assert !p.Current(p.pending[stale.value]) && p.transactions == [];
    p.TransactionsFetched(stale.value, parsed, statuses);
    afterStale := p.transactions;
    assert current.value in p.pending && p.pending[current.value] == r && p.Current(r);
    p.TransactionsFetched(current.value, parsed, statuses);
    afterCurrent := p.transactions;
  }
}
