/** The cache as it runs: slots in an array, links, maps and locks updated in place. */
module FileCache {
  import opened Bytes
  import opened Cache

  class FileCache {
    const slots: array<Item>
    var filepathToCacheIdx: map<Path, int>
    var cacheIdxToFilepath: map<int, Path>
    var freeIdxs: set<int>
    var clientIdxToCacheIdx: map<nat, int>
    var highestIdx: int
    var lowestIdx: int
    var watchToCacheIdx: map<int, int>
    var usingFile: set<nat>   // the using_file flags of the clients passed in

    function View(): Rep
      reads this, slots
    {
      Rep(slots[..], filepathToCacheIdx, cacheIdxToFilepath, freeIdxs, clientIdxToCacheIdx, highestIdx, lowestIdx,
          watchToCacheIdx, usingFile)
    }

    ghost predicate InRange(i: int)
      reads this, slots
    {
      0 <= i < slots.Length
    }

    constructor (n: nat)
      requires n >= 2
      ensures View() == Empty(n) && fresh(slots)
    {
      slots := new Item[n](_ => Blank);
      filepathToCacheIdx, cacheIdxToFilepath, clientIdxToCacheIdx := map[], map[], map[];
      highestIdx, lowestIdx, watchToCacheIdx, usingFile := -1, -1, map[], {};
      freeIdxs := {};
      new;
      for i := 0 to n
        invariant freeIdxs == UpTo(i) && slots[..] == seq(n, _ => Blank)
        invariant filepathToCacheIdx == map[] && cacheIdxToFilepath == map[] && clientIdxToCacheIdx == map[]
        invariant highestIdx == lowestIdx == -1 && watchToCacheIdx == map[] && usingFile == {}
      {
        freeIdxs := freeIdxs + {i};
      }
    }

    method SetNext(i: int, next: int)
      requires InRange(i)
      modifies slots
      ensures slots[..] == Cache.SetNext(old(slots[..]), i, next)
    {
      slots[i] := slots[i].(next := next);
    }

    method SetPrev(i: int, prev: int)
      requires InRange(i)
      modifies slots
      ensures slots[..] == Cache.SetPrev(old(slots[..]), i, prev)
    {
      slots[i] := slots[i].(prev := prev);
    }

    method Wipe(i: int)
      requires InRange(i)
      modifies this`watchToCacheIdx, this`freeIdxs, slots
      ensures View() == Cache.Wipe(old(View()), i)
    {
      watchToCacheIdx := watchToCacheIdx - {slots[i].watch};
      freeIdxs := freeIdxs + {i};
      slots[i] := Blank;
    }

    method Lock(i: int, client: nat)
      requires InRange(i)
      modifies this`usingFile, this`clientIdxToCacheIdx, slots
      ensures View() == Cache.Lock(old(View()), i, client)
    {
      usingFile := usingFile + {client};
      slots[i] := slots[i].(lock := slots[i].lock + 1);
      clientIdxToCacheIdx := clientIdxToCacheIdx[client := i];
    }

    method Unlink(i: int)
      requires InRange(i) && InRange(slots[i].next) && -1 <= slots[i].prev < slots.Length
      modifies this`lowestIdx, slots
      ensures View() == Cache.Unlink(old(View()), i)
    {
      var prev, next := slots[i].prev, slots[i].next;
      if prev != -1 {
        SetNext(prev, next);
        SetPrev(next, prev);
      } else {
        SetPrev(next, -1);
        lowestIdx := next;
      }
    }

    method LinkLast(i: int)
      requires InRange(i) && InRange(highestIdx)
      modifies this`highestIdx, slots
      ensures View() == Cache.LinkLast(old(View()), i)
    {
      SetNext(highestIdx, i);
      slots[i] := slots[i].(next := -1, prev := highestIdx);
      highestIdx := i;
    }

    method FetchItem(path: Path, client: nat) returns (result: Fetched)
      requires Indexed(View())
      modifies this, slots
      ensures (View(), result) == Fetch(old(View()), path, client)
    {
      if path !in filepathToCacheIdx {
        return Missing;
      }
      var i := filepathToCacheIdx[path];
      Lock(i, client);
      var item := slots[i];
      if item.next == -1 {
        if !item.outdated {
          return Found(item.buffer);
        }
        if item.prev != -1 {
          SetNext(item.prev, -1);
        }
        Wipe(i);
        return Missing;
      }
      Unlink(i);
      if item.outdated {
        Wipe(i);
        return Missing;
      }
      LinkLast(i);
      return Found(item.buffer);
    }

    /** The least recently used slot is emptied and leaves the list. */
    method Evict()
      requires InRange(lowestIdx) && InRange(slots[lowestIdx].next) && lowestIdx in cacheIdxToFilepath
      modifies this, slots
      ensures View() == Cache.Evict(old(View()))
    {
      var low := slots[lowestIdx];
      SetPrev(low.next, -1);
      watchToCacheIdx := watchToCacheIdx - {low.watch};
      slots[lowestIdx] := Blank;
      filepathToCacheIdx := filepathToCacheIdx - {cacheIdxToFilepath[lowestIdx]};
      cacheIdxToFilepath := cacheIdxToFilepath - {lowestIdx};
      lowestIdx := low.next;
    }

    method Fill(i: int, path: Path, buffer: Data, watch: int)
      requires InRange(i) && -1 <= highestIdx < slots.Length
      modifies this, slots
      ensures View() == Cache.Fill(old(View()), i, path, buffer, watch)
    {
      if highestIdx != -1 {
        SetNext(highestIdx, i);
      }
      filepathToCacheIdx := filepathToCacheIdx[path := i];
      cacheIdxToFilepath := cacheIdxToFilepath[i := path];
      watchToCacheIdx := watchToCacheIdx[watch := i];
      slots[i] := slots[i].(watch := watch, prev := highestIdx, next := -1, buffer := buffer);
      highestIdx := i;
    }

    /** `watch` is the kernel's answer for the path.  A refused insertion changes nothing. */
    method TryInsertItem(path: Path, buffer: Data, watch: int) returns (inserted: bool, ghost slot: int)
      requires Indexed(View())
      modifies this, slots
      ensures inserted == !Refuses(old(View()))
      ensures inserted ==> Takes(old(View()), slot) && View() == Insert(old(View()), slot, path, buffer, watch)
      ensures !inserted ==> View() == old(View())
    {
      var i := -1;
      if freeIdxs != {} {
        ghost var some := Element(freeIdxs);
        i :| i in freeIdxs;
        freeIdxs := freeIdxs - {i};
        if lowestIdx == -1 {
          lowestIdx := i;
        }
      } else if slots[lowestIdx].lock == 0 {
        i := lowestIdx;
        Evict();
      }
      slot := i;
      if i == -1 {
        return false, slot;
      }
      Fill(i, path, buffer, watch);
      return true, slot;
    }

    method InotifyEvent(watch: int)
      requires Indexed(View())
      modifies slots
      ensures View() == Modified(old(View()), watch)
    {
      if watch in watchToCacheIdx {
        var i := watchToCacheIdx[watch];
        slots[i] := slots[i].(outdated := true);
      }
    }

    method NewTcpClient(client: nat)
      modifies this`usingFile
      ensures View() == Renewed(old(View()), client)
    {
      usingFile := usingFile - {client};
    }

    method FinishedWithItem(client: nat)
      requires Indexed(View())
      modifies this`usingFile, slots
      ensures View() == Finished(old(View()), client)
    {
      if client in usingFile {
        var i := clientIdxToCacheIdx[client];
        slots[i] := slots[i].(lock := slots[i].lock - 1);
        usingFile := usingFile - {client};
      }
    }
  }
}
