/**
 * The state of the transactions provider: its four React state cells and
 * the three effects that fill them. The first effect derives the
 * associated token account. The second polls signatures for the deposit
 * address. The third fetches and classifies the transactions behind those
 * signatures.
 *
 * Every callback React or the event loop would run is a method here, run
 * one at a time: an effect starting (its previous instance's cleanup
 * first), an interval tick, an asynchronous call settling, an unmount. The
 * `changed` flag each effect instance captures is an epoch: the instance
 * started at epoch e has been cleaned up once the effect's epoch has moved
 * past e. Each asynchronous call is kept with the epoch of the instance
 * that issued it and the values its closure captured.
 */
module TransactionsProvider {
  import opened JsBuiltins
  import opened Chain
  import opened Classification

  type RequestId = nat

  /**
   * An array held in a state cell. `id` is the identity of the array
   * object, so a cell that keeps its reference can be told apart from one
   * that receives an equal copy (React re-runs dependants only on a new
   * reference).
   */
  datatype SignatureArray = SignatureArray(id: nat, items: seq<Signature>)

  /**
   * The updater `prev => arraysEqual(prev, next) ? prev : next`: the stored
   * list equals the fetched one element by element, and the old array
   * object is kept whenever it already held that list.
   */
  function KeepIfEqual(prev: SignatureArray, next: SignatureArray): (r: SignatureArray)
    ensures r.items == next.items
    ensures prev.items == next.items ==> r.id == prev.id
    ensures r.id != prev.id ==> r == next
  {
    if prev.items == next.items then prev else next
  }

  /** `associatedToken || recipient`: the address whose signatures are polled. */
  function PollTarget(associatedToken: Option<Address>, recipient: Address): (a: Address)
    ensures associatedToken.None? ==> a == recipient
    ensures associatedToken.Some? ==> a == associatedToken.value
  {
    associatedToken.GetOr(recipient)
  }

  /** `pollInterval ||= 10000`: an absent or zero interval falls back to ten seconds. */
  function TransactionPollMillis(pollInterval: Option<int>): (ms: int)
    ensures ms != 0
    ensures pollInterval.Some? && pollInterval.value != 0 ==> ms == pollInterval.value
    ensures pollInterval.None? || pollInterval.value == 0 ==> ms == 10000
  {
    if pollInterval.Some? && pollInterval.value != 0 then pollInterval.value else 10000
  }

  /** An asynchronous call in flight, with the epoch of the effect instance that made it. */
  datatype Request =
    | DeriveAddress(epoch: nat, mint: Address, owner: Address)
    | FetchSignatures(epoch: nat, target: Address)
    | FetchTransactions(epoch: nat, signatures: seq<Signature>, recipient: Address, ata: Option<Address>)

  class Provider {
    // the state cells
    var associatedToken: Option<Address>
    var signatures: SignatureArray
    var transactions: seq<Transaction>
    var loading: bool

    // the associated-token effect: its epoch and whether an instance with a cleanup is mounted
    var ataEpoch: nat
    var ataMounted: bool
    // the signature effect, and the poll target its running instance captured
    var sigEpoch: nat
    var sigMounted: bool
    var sigTarget: Address
    // the transaction effect, and what its running instance captured
    var txEpoch: nat
    var txMounted: bool
    var txSignatures: seq<Signature>
    var txRecipient: Address
    var txAta: Option<Address>

    // calls issued and not yet settled
    var pending: map<RequestId, Request>
    var nextRequest: RequestId
    // the identity the next new array object receives
    var nextArray: nat

    /**
     * True when the instance that issued r is still the effect's running
     * one, i.e. its `changed` flag is still false.
     */
    predicate Current(r: Request)
      reads this
    {
      match r
      case DeriveAddress(e, _, _) => e == ataEpoch
      case FetchSignatures(e, _) => e == sigEpoch
      case FetchTransactions(e, _, _, _) => e == txEpoch
    }

    /** No call outlives the cleanup of its instance as current, and no epoch is ahead of its effect. */
    ghost predicate WellEpoched(r: Request)
      reads this
    {
      match r
      case DeriveAddress(e, _, _) => e < ataEpoch || (e == ataEpoch && ataMounted)
      case FetchSignatures(e, _) => e < sigEpoch || (e == sigEpoch && sigMounted)
      case FetchTransactions(e, _, _, _) => e < txEpoch || (e == txEpoch && txMounted)
    }

    ghost predicate Valid()
      reads this
    {
      && (forall id | id in pending :: id < nextRequest && WellEpoched(pending[id]))
      && signatures.id < nextArray
      // `loading` is only ever true while some poll is in flight
      && (loading ==> exists id | id in pending :: !pending[id].DeriveAddress?)
      // only a mounted instance ever stores an address, and its cleanup clears it
      && (associatedToken.Some? ==> ataMounted)
      // the signature cleanup empties the list, and only a current poll refills it
      && (!sigMounted ==> signatures.items == [])
      // the transaction effect only mounts for a non-empty signature list
      && (txMounted ==> txSignatures != [])
    }

    /** The initial render: every cell holds its `useState` default and no effect has run. */
    constructor ()
      ensures Valid()
      ensures associatedToken == None && signatures.items == [] && transactions == [] && !loading
      ensures pending == map[] && !ataMounted && !sigMounted && !txMounted
    {
      associatedToken := None;
      signatures := SignatureArray(0, []);
      transactions := [];
      loading := false;
      ataEpoch, ataMounted := 0, false;
      sigEpoch, sigMounted, sigTarget := 0, false, "";
      txEpoch, txMounted, txSignatures, txRecipient, txAta := 0, false, [], "", None;
      pending := map[];
      nextRequest := 0;
      nextArray := 1;
    }

    /** Records a new call in flight and returns its handle. */
    method Issue(r: Request) returns (id: RequestId)
      requires Valid() && WellEpoched(r)
      modifies this`pending, this`nextRequest
      ensures Valid()
      ensures id !in old(pending) && pending == old(pending)[id := r]
    {
      ghost var w: RequestId := 0;
      if loading {
        w :| w in pending && !pending[w].DeriveAddress?;
      }
      id := nextRequest;
      pending := pending[id := r];
      nextRequest := nextRequest + 1;
      assert loading ==> w in pending && !pending[w].DeriveAddress?;
    }

    // ---- the associated-token effect (lines 42-58)

    /** Its cleanup: `changed = true; setAssociatedToken(undefined)`. */
    method CleanupAddressEffect()
      requires Valid()
      modifies this`ataEpoch, this`ataMounted, this`associatedToken
      ensures Valid()
      ensures !ataMounted && associatedToken == None
      ensures ataEpoch == old(ataEpoch) + (if old(ataMounted) then 1 else 0)
      ensures forall id | id in pending && pending[id].DeriveAddress? :: !Current(pending[id])
    {
      if ataMounted {
        ataEpoch := ataEpoch + 1;
        ataMounted := false;
        associatedToken := None;
      }
    }

    /**
     * The effect re-running for a new `splToken` or `recipient`: the old
     * instance is cleaned up; without a token the effect returns at once and
     * registers no cleanup, otherwise it starts deriving the address.
     */
    method RunAddressEffect(splToken: Option<Address>, recipient: Address) returns (req: Option<RequestId>)
      requires Valid()
      modifies this`ataEpoch, this`ataMounted, this`associatedToken, this`pending, this`nextRequest
      ensures Valid()
      ensures associatedToken == None
      ensures ataEpoch == old(ataEpoch) + (if old(ataMounted) then 1 else 0)
      ensures splToken.None? ==> req.None? && !ataMounted && pending == old(pending)
      ensures splToken.Some? ==>
        && ataMounted && req.Some? && req.value !in old(pending)
        && pending == old(pending)[req.value := DeriveAddress(ataEpoch, splToken.value, recipient)]
    {
      CleanupAddressEffect();
      if splToken.None? {
        req := None;
      } else {
        ataMounted := true;
        var id := Issue(DeriveAddress(ataEpoch, splToken.value, recipient));
        req := Some(id);
      }
    }

    /** `getAssociatedTokenAddress` resolved: `if (changed) return; setAssociatedToken(address)`. */
    method AddressDerived(id: RequestId, address: Address)
      requires Valid() && id in pending && pending[id].DeriveAddress?
      modifies this`associatedToken, this`pending
      ensures Valid()
      ensures pending == old(pending) - {id}
      ensures associatedToken == if old(Current(pending[id])) then Some(address) else old(associatedToken)
    {
      var current := Current(pending[id]);
      assert current ==> ataMounted;
      Settle(id);
      ghost var w: RequestId := id;
      if loading {
        w :| w in pending && !pending[w].DeriveAddress?;
      }
      if current {
        associatedToken := Some(address);
      }
      assert loading ==> w in pending && !pending[w].DeriveAddress?;
    }

    /** `getAssociatedTokenAddress` rejected: the promise is dropped and nothing changes. */
    method AddressFailed(id: RequestId)
      requires Valid() && id in pending && pending[id].DeriveAddress?
      modifies this`pending
      ensures Valid()
      ensures pending == old(pending) - {id}
    {
      Settle(id);
    }

    /** Forgets a settled call that does not bear on `loading`. */
    method Settle(id: RequestId)
      requires Valid() && id in pending && pending[id].DeriveAddress?
      modifies this`pending
      ensures Valid()
      ensures pending == old(pending) - {id}
    {
      ghost var w: RequestId := id;
      if loading {
        w :| w in pending && !pending[w].DeriveAddress?;
      }
      pending := pending - {id};
      assert loading ==> w in pending && !pending[w].DeriveAddress?;
    }

    // ---- the signature effect (lines 61-95)

    /** Its cleanup: `changed = true; clearInterval(interval); setSignatures([])`. */
    method CleanupSignatureEffect()
      requires Valid()
      modifies this`sigEpoch, this`sigMounted, this`signatures, this`nextArray
      ensures Valid()
      ensures !sigMounted && signatures.items == []
      ensures old(sigMounted) ==>
        sigEpoch == old(sigEpoch) + 1 && signatures.id == old(nextArray) && nextArray == old(nextArray) + 1
      ensures !old(sigMounted) ==>
        sigEpoch == old(sigEpoch) && signatures == old(signatures) && nextArray == old(nextArray)
      ensures forall id | id in pending && pending[id].FetchSignatures? :: !Current(pending[id])
    {
      if sigMounted {
        sigEpoch := sigEpoch + 1;
        sigMounted := false;
        signatures := SignatureArray(nextArray, []);
        nextArray := nextArray + 1;
      }
    }

    /** The start of `run`: `setLoading(true)` and the call to `getSignaturesForAddress`. */
    method StartSignaturePoll() returns (req: RequestId)
      requires Valid() && sigMounted
      modifies this`loading, this`pending, this`nextRequest
      ensures Valid() && loading
      ensures req !in old(pending) && pending == old(pending)[req := FetchSignatures(sigEpoch, sigTarget)]
    {
      req := Issue(FetchSignatures(sigEpoch, sigTarget));
      loading := true;
      assert req in pending && !pending[req].DeriveAddress?;
    }

    /**
     * The effect re-running for a new `associatedToken` or `recipient`: the
     * old instance is cleaned up, the new one captures its poll target,
     * sets up its interval and runs once at once.
     */
    method RunSignatureEffect(recipient: Address) returns (req: RequestId)
      requires Valid()
      modifies this`sigEpoch, this`sigMounted, this`signatures, this`nextArray, this`sigTarget,
               this`loading, this`pending, this`nextRequest
      ensures Valid() && loading && sigMounted
      ensures sigTarget == PollTarget(associatedToken, recipient)
      ensures signatures.items == []
      ensures sigEpoch == old(sigEpoch) + (if old(sigMounted) then 1 else 0)
      ensures req !in old(pending) && pending == old(pending)[req := FetchSignatures(sigEpoch, sigTarget)]
    {
      CleanupSignatureEffect();
      sigMounted := true;
      sigTarget := PollTarget(associatedToken, recipient);
      req := StartSignaturePoll();
    }

    /** A tick of the 5000 ms interval; a cleared interval never fires. */
    method SignatureTick() returns (req: Option<RequestId>)
      requires Valid()
      modifies this`loading, this`pending, this`nextRequest
      ensures Valid()
      ensures !sigMounted ==> req.None? && pending == old(pending) && loading == old(loading)
      ensures sigMounted ==>
        && loading && req.Some? && req.value !in old(pending)
        && pending == old(pending)[req.value := FetchSignatures(sigEpoch, sigTarget)]
    {
      if sigMounted {
        var id := StartSignaturePoll();
        req := Some(id);
      } else {
        req := None;
      }
    }

    /**
     * `getSignaturesForAddress` resolved with the signatures `fetched`. A
     * stale response leaves every cell but `loading` alone; a current one
     * runs the updater, which keeps the old array when nothing changed. The
     * `finally` clears `loading` either way.
     */
    method SignaturesFetched(id: RequestId, fetched: seq<Signature>)
      requires Valid() && id in pending && pending[id].FetchSignatures?
      modifies this`signatures, this`nextArray, this`loading, this`pending
      ensures Valid() && !loading
      ensures pending == old(pending) - {id}
      ensures !old(Current(pending[id])) ==> signatures == old(signatures)
      ensures old(Current(pending[id])) ==>
        signatures == KeepIfEqual(old(signatures), SignatureArray(old(nextArray), fetched))
      ensures old(Current(pending[id])) ==> signatures.items == fetched
      ensures old(Current(pending[id])) && fetched == old(signatures.items) ==> signatures == old(signatures)
    {
      var current := Current(pending[id]);
      pending := pending - {id};
      if current {
        var next := SignatureArray(nextArray, fetched);
        nextArray := nextArray + 1;
        signatures := KeepIfEqual(signatures, next);
      }
      loading := false;
    }

    /** `getSignaturesForAddress` rejected: logged; only the `finally` runs. */
    method SignaturesFailed(id: RequestId)
      requires Valid() && id in pending && pending[id].FetchSignatures?
      modifies this`loading, this`pending
      ensures Valid() && !loading
      ensures pending == old(pending) - {id}
    {
      pending := pending - {id};
      loading := false;
    }

    // ---- the transaction effect (lines 98-227)

    /** Its cleanup: `changed = true; clearInterval(interval)`. The published list is kept. */
    method CleanupTransactionsEffect()
      requires Valid()
      modifies this`txEpoch, this`txMounted
      ensures Valid() && !txMounted
      ensures txEpoch == old(txEpoch) + (if old(txMounted) then 1 else 0)
      ensures forall id | id in pending && pending[id].FetchTransactions? :: !Current(pending[id])
    {
      if txMounted {
        txEpoch := txEpoch + 1;
        txMounted := false;
      }
    }

    /** The start of `run`: `setLoading(true)` and the two batched calls. */
    method StartTransactionsPoll() returns (req: RequestId)
      requires Valid() && txMounted
      modifies this`loading, this`pending, this`nextRequest
      ensures Valid() && loading
      ensures req !in old(pending)
      ensures pending == old(pending)[req := FetchTransactions(txEpoch, txSignatures, txRecipient, txAta)]
    {
      req := Issue(FetchTransactions(txEpoch, txSignatures, txRecipient, txAta));
      loading := true;
      assert req in pending && !pending[req].DeriveAddress?;
    }

    /**
     * The effect re-running for new signatures, associated token or
     * recipient: the old instance is cleaned up; with no signatures the
     * effect returns at once and registers nothing, otherwise the new
     * instance captures its inputs, sets up its interval and runs once.
     */
    method RunTransactionsEffect(recipient: Address) returns (req: Option<RequestId>)
      requires Valid()
      modifies this`txEpoch, this`txMounted, this`txSignatures, this`txRecipient, this`txAta,
               this`loading, this`pending, this`nextRequest
      ensures Valid()
      ensures txEpoch == old(txEpoch) + (if old(txMounted) then 1 else 0)
      ensures signatures.items == [] ==>
        req.None? && !txMounted && pending == old(pending) && loading == old(loading)
      ensures signatures.items != [] ==>
        && txMounted && loading && req.Some? && req.value !in old(pending)
        && txSignatures == signatures.items && txRecipient == recipient && txAta == associatedToken
        && pending == old(pending)[req.value := FetchTransactions(txEpoch, signatures.items, recipient, associatedToken)]
    {
      CleanupTransactionsEffect();
      if signatures.items == [] {
        req := None;
      } else {
        txMounted := true;
        txSignatures, txRecipient, txAta := signatures.items, recipient, associatedToken;
        var id := StartTransactionsPoll();
        req := Some(id);
      }
    }

    /** A tick of the `pollInterval` interval; a cleared interval never fires. */
    method TransactionsTick() returns (req: Option<RequestId>)
      requires Valid()
      modifies this`loading, this`pending, this`nextRequest
      ensures Valid()
      ensures !txMounted ==> req.None? && pending == old(pending) && loading == old(loading)
      ensures txMounted ==>
        && loading && req.Some? && req.value !in old(pending)
        && pending == old(pending)[req.value := FetchTransactions(txEpoch, txSignatures, txRecipient, txAta)]
    {
      if txMounted {
        var id := StartTransactionsPoll();
        req := Some(id);
      } else {
        req := None;
      }
    }

    /**
     * Both batched calls resolved. `loading` is cleared first; a stale
     * response then stops, and a current one publishes the classified list
     * of the signatures, recipient and token account its instance captured,
     * unless the classification threw.
     */
    method TransactionsFetched(id: RequestId, parsed: seq<Option<ParsedTransaction>>,
                               statuses: seq<Option<SignatureStatus>>)
      requires Valid() && id in pending && pending[id].FetchTransactions?
      modifies this`transactions, this`loading, this`pending
      ensures Valid() && !loading
      ensures pending == old(pending) - {id}
      ensures var r := old(pending[id]);
              var batch := ClassifyBatch(r.signatures, parsed, statuses, r.recipient, r.ata);
              transactions == if old(Current(r)) && batch.Some? then batch.value else old(transactions)
    {
      var r := pending[id];
      var current := Current(r);
      pending := pending - {id};
      loading := false;
      if current {
        var batch := ClassifyBatch(r.signatures, parsed, statuses, r.recipient, r.ata);
        if batch.Some? {
          transactions := batch.value;
        }
      }
    }

    /** One of the batched calls rejected: logged; only the `finally` runs. */
    method TransactionsFailed(id: RequestId)
      requires Valid() && id in pending && pending[id].FetchTransactions?
      modifies this`loading, this`pending
      ensures Valid() && !loading
      ensures pending == old(pending) - {id}
    {
      pending := pending - {id};
      loading := false;
    }

    /** The provider unmounting: every registered cleanup runs. */
    method Unmount()
      requires Valid()
      modifies this
      ensures Valid()
      ensures !ataMounted && !sigMounted && !txMounted
      ensures associatedToken == None && signatures.items == [] && transactions == old(transactions)
      ensures pending == old(pending) && loading == old(loading)
      ensures forall id | id in pending :: !Current(pending[id])
    {
      CleanupAddressEffect();
      CleanupSignatureEffect();
      CleanupTransactionsEffect();
    }
  }
}
