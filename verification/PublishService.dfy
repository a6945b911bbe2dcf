/** `GitLabPublishService`: one caller's path through claim, publish and record. */
module PublishService {
  import opened Wrappers
  import opened ActorRecords
  import opened RuntimeStores
  import SQLiteStore

  /** What calling the publisher comes to. */
  datatype PublisherOutcome = Posts(externalId: Option<string>) | Throws(error: string)

  /** The clock at the four places the service or the store reads it. */
  datatype Readings = Readings(made: int, claimed: int, recorded: int)

  class Service {
    const store: SQLiteStore.Store?
    const actor: Key

    constructor (store: SQLiteStore.Store?, actor: Key)
      ensures this.store == store && this.actor == actor
    {
      this.store, this.actor := store, actor;
    }

    /** Receipts are kept only with a store and a non-empty actor key. */
    predicate Durable() {
      store != null && actor != ""
    }

    function MakeReceipt(opKey: string, channel: Channel, externalId: Option<string>, status: PublishStatus,
        at: int): Receipt {
      Receipt(actor, opKey, channel, externalId, status, Some(at))
    }

    /** The receipt that keeps others from publishing at the time of the claim. */
    ghost predicate Blocked(opKey: string, ttl: int, now: int)
      reads this, store
    {
      && Durable()
      && (actor, opKey) in store.receipts
      && !CanBeReclaimed(store.receipts[(actor, opKey)], Some(ttl), now)
    }

    /** `_publish`; the outcome is what the publisher would do if called. */
    method Publish(opKey: string, channel: Channel, outcome: PublisherOutcome, ttl: int, at: Readings)
        returns (answer: Result<Receipt, string>, called: bool)
      modifies store
      ensures called == !old(Blocked(opKey, ttl, at.claimed))
      ensures !called ==>
                && answer == Success(old(store.receipts)[(actor, opKey)])
                && store.View() == old(store.View())
      ensures called ==> (answer.Success? <==> outcome.Posts?)
      ensures called && outcome.Posts? ==>
                && answer.value == MakeReceipt(opKey, channel, outcome.externalId, Completed, at.recorded)
                && answer.value.externalId == outcome.externalId && answer.value.status == Completed
                && answer.value.channel == channel && answer.value.opKey == opKey
      ensures called && Durable() ==>
                store.receipts == old(store.receipts)[(actor, opKey) :=
                  if outcome.Posts? then MakeReceipt(opKey, channel, outcome.externalId, Completed, at.recorded)
                  else MakeReceipt(opKey, channel, None, Failed, at.recorded)]
    {
      called := true;
      if Durable() {
        var claim, claimed :=
          store.ClaimPublishReceipt(MakeReceipt(opKey, channel, None, Claimed, at.made), Some(ttl), at.claimed);
        if !claimed { return Success(claim), false; }
      }
      match outcome {
        case Throws(error) =>
          if Durable() { store.RecordPublishReceipt(MakeReceipt(opKey, channel, None, Failed, at.recorded)); }
          return Failure(error), true;
        case Posts(id) =>
          var receipt := MakeReceipt(opKey, channel, id, Completed, at.recorded);
          if Durable() { store.RecordPublishReceipt(receipt); }
          return Success(receipt), true;
      }
    }

    /** A repeated publish after a success returns the first receipt and calls nothing;
        after a failure it calls the publisher again. */
    method PublishAgain(
        opKey: string, channel: Channel, first: PublisherOutcome, second: PublisherOutcome, ttl: int, at: Readings,
        later: Readings)
        returns (one: Result<Receipt, string>, two: Result<Receipt, string>, calledAgain: bool)
      requires Durable() && !Blocked(opKey, ttl, at.claimed)
      modifies store
      ensures calledAgain <==> first.Throws?
      ensures first.Posts? ==> two == one && one.Success? && one.value.status == Completed
    {
      var called;
      one, called := Publish(opKey, channel, first, ttl, at);
      two, calledAgain := Publish(opKey, channel, second, ttl, later);
    }
  }
}
