/** The central store of broadcast buffers: slots with use counts, reused through a set of free indexes. */
module DataStore {
  import opened Bytes

  /** A slot of data_vec.  `ptr` identifies the heap allocation that holds the bytes. */
  datatype Slot = Slot(ptr: nat, data: Data, uses: int)

  const Released: Slot := Slot(0, [], -1)

  /** `allocations` numbers the buffers handed to the store so far. */
  datatype Store = Store(slots: seq<Slot>, free: set<nat>, allocations: nat) {
    predicate Live(item: nat) {
      item < |slots| && item !in free
    }
  }

  /** The index an insertion may choose: any free one, or a new slot when none is free. */
  predicate Insertable(s: Store, item: nat) {
    if s.free == {} then item == |s.slots| else item in s.free && item < |s.slots|
  }

  function InsertItem(s: Store, data: Data, uses: int, item: nat): Store
    requires Insertable(s, item)
  {
    var slot := Slot(s.allocations + 1, data, uses);
    Store(if item < |s.slots| then s.slots[item := slot] else s.slots + [slot], s.free - {item}, s.allocations + 1)
  }

  function FreeItem(s: Store, item: nat): Store
    requires item < |s.slots|
  {
    var left := s.slots[item].uses - 1;
    if left == 0 then s.(slots := s.slots[item := Released], free := s.free + {item})
    else s.(slots := s.slots[item := s.slots[item].(uses := left)])
  }

  /** The data_store class. */
  class Buffers {
    var dataVec: seq<Slot>
    var freeIdxs: set<nat>
    ghost var allocations: nat

    ghost function View(): Store
      reads this
    {
      Store(dataVec, freeIdxs, allocations)
    }

    constructor ()
      ensures View() == Store([], {}, 0)
    {
      dataVec, freeIdxs, allocations := [], {}, 0;
    }

    method Insert(ptr: nat, data: Data, uses: int) returns (item: nat)
      requires forall i :: i in freeIdxs ==> i < |dataVec|
      requires ptr == allocations + 1
      modifies this
      ensures Insertable(old(View()), item) && View() == InsertItem(old(View()), data, uses, item)
    {
      if |freeIdxs| > 0 {
        item :| item in freeIdxs;
        freeIdxs := freeIdxs - {item};
      } else {
        dataVec := dataVec + [Released];
        item := |dataVec| - 1;
      }
      dataVec := dataVec[item := Slot(ptr, data, uses)];
      allocations := allocations + 1;
    }

    method Free(item: nat)
      requires item < |dataVec|
      modifies this
      ensures View() == FreeItem(old(View()), item)
    {
      dataVec := dataVec[item := dataVec[item].(uses := dataVec[item].uses - 1)];
      if dataVec[item].uses == 0 {
        dataVec := dataVec[item := Released];
        freeIdxs := freeIdxs + {item};
      }
    }
  }
}
