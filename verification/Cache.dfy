/** The file cache: an array of slots threaded into a doubly linked list from the least to the most recently used,
    with lookup maps, client locks and modification watches.  These functions say what each operation of the class
    does, on any state. */
module Cache {
  import opened Bytes

  type Path = string

  /** cache_item. */
  datatype Item = Item(buffer: Data, lock: int, next: int, prev: int, outdated: bool, watch: int)

  const Blank: Item := Item([], 0, -1, -1, false, 0)

  /** The fields of the class; `users` are the clients whose using_file flag is set. */
  datatype Rep = Rep(
    items: seq<Item>, pathToIdx: map<Path, int>, idxToPath: map<int, Path>, free: set<int>,
    clientToIdx: map<nat, int>, highest: int, lowest: int, watchToIdx: map<int, int>, users: set<nat>)

  datatype Fetched = Found(buffer: Data) | Missing

  function At(items: seq<Item>, i: int): Item {
    if 0 <= i < |items| then items[i] else Blank
  }

  function Put(items: seq<Item>, i: int, item: Item): (r: seq<Item>)
    ensures |r| == |items|
  {
    if 0 <= i < |items| then items[i := item] else items
  }

  function SetNext(items: seq<Item>, i: int, next: int): seq<Item> {
    Put(items, i, At(items, i).(next := next))
  }

  function SetPrev(items: seq<Item>, i: int, prev: int): seq<Item> {
    Put(items, i, At(items, i).(prev := prev))
  }

  /** The client locks the slot. */
  function Lock(c: Rep, i: int, client: nat): Rep {
    c.(items := Put(c.items, i, At(c.items, i).(lock := At(c.items, i).lock + 1)),
       users := c.users + {client}, clientToIdx := c.clientToIdx[client := i])
  }

  /** An outdated slot is wiped: the lookup maps by path are left as they are. */
  function Wipe(c: Rep, i: int): Rep {
    c.(items := Put(c.items, i, Blank), free := c.free + {i}, watchToIdx := c.watchToIdx - {At(c.items, i).watch})
  }

  /** A slot with a successor leaves the list. */
  function Unlink(c: Rep, i: int): Rep {
    var item := At(c.items, i);
    if item.prev != -1 then
      c.(items := SetPrev(SetNext(c.items, item.prev, item.next), item.next, item.prev))
    else
      c.(items := SetPrev(c.items, item.next, -1), lowest := item.next)
  }

  function LinkLast(c: Rep, i: int): Rep {
    var items := SetNext(c.items, c.highest, i);
    c.(items := Put(items, i, At(items, i).(next := -1, prev := c.highest)), highest := i)
  }

  /** fetch_item. */
  function Fetch(c: Rep, path: Path, client: nat): (Rep, Fetched) {
    if path !in c.pathToIdx then (c, Missing) else
      var i := c.pathToIdx[path];
      var c1 := Lock(c, i, client);
      var item := At(c1.items, i);
      if item.next == -1 then
        if !item.outdated then (c1, Found(item.buffer))
        else
          var c2 := if item.prev != -1 then c1.(items := SetNext(c1.items, item.prev, -1)) else c1;
          (Wipe(c2, i), Missing)
      else
        var c2 := Unlink(c1, i);
        if item.outdated then (Wipe(c2, i), Missing)
        else (LinkLast(c2, i), Found(item.buffer))
  }

  /** Which slot an insertion takes: a free one, or the least recently used one if no client locks it. */
  predicate Takes(c: Rep, i: int) {
    0 <= i < |c.items| && if c.free != {} then i in c.free else i == c.lowest && At(c.items, i).lock == 0
  }

  predicate Refuses(c: Rep) {
    c.free == {} && At(c.items, c.lowest).lock != 0
  }

  function Evict(c: Rep): Rep {
    var low := At(c.items, c.lowest);
    var gone := if c.lowest in c.idxToPath then c.idxToPath[c.lowest] else "";
    c.(items := Put(SetPrev(c.items, low.next, -1), c.lowest, Blank), watchToIdx := c.watchToIdx - {low.watch},
       pathToIdx := c.pathToIdx - {gone}, idxToPath := c.idxToPath - {c.lowest}, lowest := low.next)
  }

  function Claim(c: Rep, i: int): Rep {
    if c.free != {} then c.(free := c.free - {i}, lowest := if c.lowest == -1 then i else c.lowest) else Evict(c)
  }

  function Fill(c: Rep, i: int, path: Path, buffer: Data, watch: int): Rep {
    var items := if c.highest != -1 then SetNext(c.items, c.highest, i) else c.items;
    c.(items := Put(items, i, At(items, i).(buffer := buffer, watch := watch, next := -1, prev := c.highest)),
       pathToIdx := c.pathToIdx[path := i], idxToPath := c.idxToPath[i := path],
       watchToIdx := c.watchToIdx[watch := i], highest := i)
  }

  /** try_insert_item into slot i; `watch` is what the kernel returns for the path. */
  function Insert(c: Rep, i: int, path: Path, buffer: Data, watch: int): Rep
    requires Takes(c, i)
  {
    Fill(Claim(c, i), i, path, buffer, watch)
  }

  /** inotify_event_handler. */
  function Modified(c: Rep, watch: int): Rep {
    if watch in c.watchToIdx then
      var i := c.watchToIdx[watch];
      c.(items := Put(c.items, i, At(c.items, i).(outdated := true)))
    else c
  }

  /** finished_with_item. */
  function Finished(c: Rep, client: nat): Rep {
    if client in c.users then
      var i := if client in c.clientToIdx then c.clientToIdx[client] else 0;
      c.(items := Put(c.items, i, At(c.items, i).(lock := At(c.items, i).lock - 1)), users := c.users - {client})
    else c
  }

  /** new_tcp_client: the client's slot carries a new connection, which is using no file. */
  function Renewed(c: Rep, client: nat): Rep {
    c.(users := c.users - {client})
  }

  predicate IsSlot(c: Rep, i: int) {
    0 <= i < |c.items|
  }

  /** Every index the operations follow is a slot, or -1 where they test for it. */
  ghost predicate Indexed(c: Rep) {
    && |c.items| >= 2
    && (forall p :: p in c.pathToIdx ==> IsSlot(c, c.pathToIdx[p]))
    && (forall i :: i in c.free ==> IsSlot(c, i))
    && (forall w :: w in c.watchToIdx ==> IsSlot(c, c.watchToIdx[w]))
    && (forall u :: u in c.users ==> u in c.clientToIdx && IsSlot(c, c.clientToIdx[u]))
    && (forall i :: 0 <= i < |c.items| ==> -1 <= c.items[i].next < |c.items| && -1 <= c.items[i].prev < |c.items|)
    && -1 <= c.highest < |c.items| && -1 <= c.lowest < |c.items|
    && (c.pathToIdx != map[] ==> c.highest != -1)
    && (c.free == {} ==> IsSlot(c, c.lowest) && IsSlot(c, c.items[c.lowest].next) && c.lowest in c.idxToPath)
  }

  lemma Element<T>(s: set<T>) returns (x: T)
    requires s != {}
    ensures x in s
  {
    x :| x in s;
  }

  function UpTo(n: nat): (r: set<int>)
    ensures forall i :: i in r <==> 0 <= i < n
  {
    if n == 0 then {} else UpTo(n - 1) + {n - 1}
  }

  function Empty(n: nat): Rep {
    Rep(seq(n, _ => Blank), map[], map[], UpTo(n), map[], -1, -1, map[], {})
  }
}
