/**
 Cancellation of interactive hash checks (backend/vk_hash_operations.go): one bulk check at a time,
 any number of single checks, and a button that cancels them all.
 */
module HashOperations {
  import opened Wrappers

  /** A cancelable context; canceled is its Err() != nil. */
  class Context {
    var canceled: bool

    /** Derived from a parent that may have ended already.  A parent that ends later cancels it, as
        its own Cancel does. */
    constructor (parentEnded: bool)
      ensures canceled == parentEnded
    {
      canceled := parentEnded;
    }

    method Cancel()
      modifies this
      ensures canceled
    {
      canceled := true;
    }
  }

  class OperationState {
    var bulkCancel: Context?
    var bulkOperation: string
    var manualCancels: map<string, Context>

    /** Operation ids are never empty, so a bulk check is registered under its id or not at all. */
    ghost predicate Valid()
      reads this
    {
      bulkCancel == null <==> bulkOperation == ""
    }

    constructor ()
      ensures Valid() && bulkCancel == null && manualCancels == map[]
    {
      bulkCancel, bulkOperation, manualCancels := null, "", map[];
    }

    method BeginBulk(operationID: string, parentEnded: bool) returns (ctx: Context?)
      requires Valid() && operationID != ""
      modifies this`bulkCancel, this`bulkOperation
      ensures Valid()
      ensures ctx == null <==> old(bulkCancel) != null
      ensures ctx == null ==> bulkCancel == old(bulkCancel) && bulkOperation == old(bulkOperation)
      ensures ctx != null ==> fresh(ctx) && ctx.canceled == parentEnded && bulkCancel == ctx && bulkOperation == operationID
    {
      if bulkCancel != null {
        return null;
      }
      ctx := new Context(parentEnded);
      bulkCancel, bulkOperation := ctx, operationID;
    }

    /** The completion function that BeginBulk hands out.  Called late or twice, it leaves a newer
        bulk check registered. */
    method FinishBulk(ctx: Context, operationID: string)
      requires Valid() && operationID != ""
      modifies this`bulkCancel, this`bulkOperation, ctx
      ensures Valid() && ctx.canceled
      ensures if old(bulkOperation) == operationID then bulkCancel == null
              else bulkCancel == old(bulkCancel) && bulkOperation == old(bulkOperation)
    {
      ctx.Cancel();
      if bulkOperation == operationID {
        bulkCancel, bulkOperation := null, "";
      }
    }

    method BeginManual(operationID: string, parentEnded: bool) returns (ctx: Context)
      modifies this`manualCancels
      ensures fresh(ctx) && ctx.canceled == parentEnded
      ensures manualCancels == old(manualCancels)[operationID := ctx]
    {
      ctx := new Context(parentEnded);
      manualCancels := manualCancels[operationID := ctx];
    }

    method FinishManual(ctx: Context, operationID: string)
      modifies this`manualCancels, ctx
      ensures ctx.canceled
      ensures manualCancels == old(manualCancels) - {operationID}
    {
      ctx.Cancel();
      manualCancels := manualCancels - {operationID};
    }

    /** Every registered operation is canceled and stays registered until it finishes. */
    method CancelInteractive()
      modifies manualCancels.Values, if bulkCancel == null then {} else {bulkCancel}
      ensures bulkCancel != null ==> bulkCancel.canceled
      ensures forall id :: id in manualCancels ==> manualCancels[id].canceled
    {
      if bulkCancel != null {
        bulkCancel.Cancel();
      }
      var pending := manualCancels.Keys;
      while pending != {}
        invariant pending <= manualCancels.Keys
        invariant bulkCancel != null ==> bulkCancel.canceled
        invariant forall id :: id in manualCancels && id !in pending ==> manualCancels[id].canceled
      {
        var id :| id in pending;
        manualCancels[id].Cancel();
        pending := pending - {id};
      }
    }
  }
}
