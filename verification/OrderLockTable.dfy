/**
`LockOrder` and `UnlockOrder` as they are written: over a map of mutex objects that they
create, count and delete in place. The bodies are the uncontended calls; what holds when many
threads interleave them is proved in module OrderLock, statement by statement.
*/
module OrderLockTable {

  class RefCountedMutex {
    var held: bool
    var refCount: int

    constructor ()
      ensures !held && refCount == 0
    {
      held := false;
      refCount := 0;
    }
  }

  class OrderLocks {
    var orderLocks: map<string, RefCountedMutex>

    /** Different order numbers never share an object, and an entry is there because somebody
        still counts on it. */
    ghost predicate Valid()
      reads this, orderLocks.Values
    {
      && (forall j, k | j in orderLocks && k in orderLocks && j != k :: orderLocks[j] != orderLocks[k])
      && (forall k | k in orderLocks :: orderLocks[k].refCount >= 1)
    }

    constructor ()
      ensures Valid() && orderLocks == map[]
    {
      orderLocks := map[];
    }

    method LockOrder(tradeNo: string)
      requires Valid()
      requires tradeNo in orderLocks ==> !orderLocks[tradeNo].held  // otherwise the call waits
      modifies this, orderLocks.Values
      ensures Valid() && tradeNo in orderLocks && orderLocks[tradeNo].held
      ensures if tradeNo in old(orderLocks)
              then orderLocks == old(orderLocks)
                && orderLocks[tradeNo].refCount == old(orderLocks[tradeNo].refCount) + 1
              else fresh(orderLocks[tradeNo]) && orderLocks == old(orderLocks)[tradeNo := orderLocks[tradeNo]]
                   && orderLocks[tradeNo].refCount == 1
      ensures forall k | k in old(orderLocks) && k != tradeNo :: unchanged(old(orderLocks[k]))
    {
      var rcm: RefCountedMutex;
      if tradeNo in orderLocks {
        rcm := orderLocks[tradeNo];
      } else {
        rcm := new RefCountedMutex();
        orderLocks := orderLocks[tradeNo := rcm];
      }
      rcm.refCount := rcm.refCount + 1;
      rcm.held := true;
    }

    method UnlockOrder(tradeNo: string)
      requires Valid()
      requires tradeNo in orderLocks ==> orderLocks[tradeNo].held  // unlocking a free mutex is fatal
      modifies this, orderLocks.Values
      ensures Valid()
      ensures tradeNo !in old(orderLocks) ==> orderLocks == old(orderLocks)
      ensures tradeNo in old(orderLocks) ==>
        && var rcm := old(orderLocks[tradeNo]);
        && !rcm.held && rcm.refCount == old(rcm.refCount) - 1
        && orderLocks == if old(rcm.refCount) == 1 then old(orderLocks) - {tradeNo} else old(orderLocks)
      ensures forall k | k in old(orderLocks) && k != tradeNo :: unchanged(old(orderLocks[k]))
    {
      if tradeNo !in orderLocks {
        return;
      }
      var rcm := orderLocks[tradeNo];
      rcm.held := false;
      rcm.refCount := rcm.refCount - 1;
      if rcm.refCount == 0 {
        orderLocks := orderLocks - {tradeNo};
      }
    }

    /** The pattern of every caller: lock, work, deferred unlock. Nothing is left of it. */
    method Section(tradeNo: string)
      requires Valid()
      requires tradeNo in orderLocks ==> !orderLocks[tradeNo].held
      modifies this, orderLocks.Values
      ensures Valid() && orderLocks == old(orderLocks)
      ensures forall k | k in old(orderLocks) ::
        orderLocks[k].held == old(orderLocks[k].held) && orderLocks[k].refCount == old(orderLocks[k].refCount)
    {
      LockOrder(tradeNo);
      UnlockOrder(tradeNo);
    }
  }
}
