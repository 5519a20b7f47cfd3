/**
 `handle_queue_message` for one delivery: which replacement it publishes and how
 it settles its source, given how processing, publishing and storing ended.
 */
module MessageHandler {
  import opened Delivery

  /** How processing a delivery ended; `Malformed` is a rejected solve message that still names a job. */
  datatype Processed = Completed | OwnerChanged | BusyOwner | Rejected | Malformed | Broken

  datatype Stored = StoredOk | StoredByOther | StoreFailed

  datatype Settlement = Ack | Nack | Reject

  class Channel {
    var settled: seq<Settlement>
    var published: seq<nat>   // retry counts of the copies handed to the broker

    constructor ()
      ensures settled == [] && published == []
    {
      settled := [];
      published := [];
    }

    /** Hands one copy to the broker; only a confirmed publish counts as replaced. */
    method PublishRetry(retry: nat, confirm: Confirm) returns (replaced: bool)
      modifies this`published
      ensures replaced <==> confirm.Confirmed?
      ensures published == old(published) + [retry]
    {
      published := published + [retry];
      return confirm.Confirmed?;
    }

    method Handle(processed: Processed, retry: nat, maxRetries: nat, confirm: Confirm, stored: Stored)
      modifies this
      // The source is settled exactly once, whatever happened.
      ensures |settled| == |old(settled)| + 1 && settled[..|old(settled)|] == old(settled)
      ensures |old(published)| <= |published|
      ensures var how := settled[|settled| - 1];
              var copies := published[|old(published)|..];
              && published[..|old(published)|] == old(published)
              && |copies| <= 1
              // A busy job's copy keeps the count; a fault's copy raises it by one, within the budget.
              && (copies != [] <==> processed.BusyOwner? || (processed.Broken? && retry < maxRetries))
              && (copies != [] ==> copies[0] == retry + if processed.Broken? then 1 else 0)
              && (copies != [] && retry <= maxRetries ==> copies[0] <= maxRetries)
              // Work is never dropped: an acknowledged copy-bearing source was confirmed, an unconfirmed one returns.
              && (copies != [] ==> (how == Ack <==> confirm.Confirmed?) && how != Reject)
              // The dead-letter queue is only for rejected messages and exhausted ones whose end was stored.
              && (how == Reject <==>
                    || processed.Rejected?
                    || (processed.Malformed? && stored.StoredOk?)
                    || (processed.Broken? && maxRetries <= retry && stored.StoredOk?))
              && (processed.Completed? || processed.OwnerChanged? ==> how == Ack)
              && (processed.Malformed? ==> (how == Ack <==> stored.StoredByOther?))
              && (processed.Broken? && maxRetries <= retry ==> how != Ack)
    {
      match processed {
        case Completed => settled := settled + [Ack];
        case OwnerChanged => settled := settled + [Ack];
        case BusyOwner =>
          var replaced := PublishRetry(retry, confirm);
          settled := settled + [if replaced then Ack else Nack];
        case Rejected => settled := settled + [Reject];
        case Malformed =>
          match stored {
            case StoredByOther => settled := settled + [Ack];
            case StoreFailed => settled := settled + [Nack];
            case StoredOk => settled := settled + [Reject];
          }
        case Broken =>
          if retry >= maxRetries {
            settled := settled + [if stored.StoredOk? then Reject else Nack];
            return;
          }
          var replaced := PublishRetry(retry + 1, confirm);
          if !replaced {
            settled := settled + [Nack];
            return;
          }
          // The RETRYING mark may fail; the confirmed copy owns the delivery either way.
          settled := settled + [Ack];
      }
    }
  }
}
