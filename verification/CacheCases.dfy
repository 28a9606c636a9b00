/** Runs of the cache that go wrong, operation by operation from an empty cache of two slots. */
module CacheCases {
  import opened Bytes
  import opened Cache
  import opened CacheInvariant
  import opened CacheProofs
  import opened CacheRuns
  import CacheServing

  /** The cache has come to `c` and `h` by these operations. */
  ghost predicate Comes(states: seq<State>, ops: seq<Op>, c: Rep, h: History) {
    Run(states, ops) && states[0] == State(Empty(2), NoHistory(h.files)) && states[|ops|] == State(c, h)
  }

  lemma OneOp(before: seq<State>, ops: seq<Op>, c: Rep, h: History, op: Op, d: Rep, g: History)
      returns (states: seq<State>)
    requires Comes(before, ops, c, h) && Possible(c, h, op) && Done(c, op) == d && Recorded(c, h, op) == g
    requires g.files == h.files
    ensures Comes(states, ops + [op], d, g)
    ensures AllOrderly(before, ops) && Orderly(c, op) ==> AllOrderly(states, ops + [op])
  {
    RunSnoc(before, ops, op, State(d, g));
    states := before + [State(d, g)];
  }

  /** Two slots, of which the first holds the byte 65 under "a". */
  function OneFile(outdated: bool, lock: int, users: set<nat>, clients: map<nat, int>): Rep {
    Rep([Item([65], lock, -1, -1, outdated, 1), Blank], map["a" := 0], map[0 := "a"], {1}, clients, 0, 0, map[1 := 0],
        users)
  }

  const Fresh: Rep := OneFile(false, 0, {}, map[])

  function OneInserted(files: Path -> nat): History {
    History(files, map["a" := [65]], map[1 := files("a")], {1}, {}, map[0 := 0], 1)
  }

  lemma FirstInserted(files: Path -> nat) returns (states: seq<State>)
    ensures Comes(states, [InsertOp(0, "a", [65], 1)], Fresh, OneInserted(files))
    ensures AllOrderly(states, [InsertOp(0, "a", [65], 1)])
  {
    var c := Empty(2);
    assert UpTo(2) == {0, 1} && c.items == [Blank, Blank];
    assert Claim(c, 0) == c.(free := {1}, lowest := 0);
    assert Put(c.items, 0, Blank.(buffer := [65], watch := 1)) == Fresh.items;
    states := [State(c, NoHistory(files))];
    assert Run(states, []) && AllOrderly(states, []);
    states := OneOp(states, [], c, NoHistory(files), InsertOp(0, "a", [65], 1), Fresh, OneInserted(files));
    assert [] + [InsertOp(0, "a", [65], 1)] == [InsertOp(0, "a", [65], 1)];
  }

  /** One file is cached and then modified: the next fetch of it meets an outdated slot. */
  lemma OutdatedFetchReachable(files: Path -> nat)
    ensures exists ops, c, h :: Reached(2, ops, c, h) && FetchesOutdated(c, "a")
  {
    var states := FirstInserted(files);
    var d, g := OneFile(true, 0, {}, map[]), Noted(OneInserted(files), 1);
    assert Fresh.items[0 := d.items[0]] == d.items;
    states := OneOp(states, [InsertOp(0, "a", [65], 1)], Fresh, OneInserted(files), ModifyOp(1), d, g);
    assert Reached(2, [InsertOp(0, "a", [65], 1)] + [ModifyOp(1)], d, g) && FetchesOutdated(d, "a");
  }

  // ----- locks that are never given back -----

  lemma FileFetched(files: Path -> nat) returns (states: seq<State>)
    ensures Comes(states, [InsertOp(0, "a", [65], 1), FetchOp("a", 7)], OneFile(false, 1, {7}, map[7 := 0]),
                  Touched(OneInserted(files), 0))
    ensures AllOrderly(states, [InsertOp(0, "a", [65], 1), FetchOp("a", 7)])
  {
    var c := OneFile(false, 1, {7}, map[7 := 0]);
    states := FirstInserted(files);
    assert Fresh.items[0 := c.items[0]] == c.items;
    states := OneOp(states, [InsertOp(0, "a", [65], 1)], Fresh, OneInserted(files), FetchOp("a", 7), c,
                    Touched(OneInserted(files), 0));
    assert [InsertOp(0, "a", [65], 1)] + [FetchOp("a", 7)] == [InsertOp(0, "a", [65], 1), FetchOp("a", 7)];
  }

  /** A client fetches a file twice: it holds two locks, and gives back one. */
  lemma LockLeaksOnSecondFetch(files: Path -> nat) returns (states: seq<State>, ops: seq<Op>, c: Rep, h: History)
    ensures ops == [InsertOp(0, "a", [65], 1), FetchOp("a", 7), FetchOp("a", 7), FinishOp(7)]
    ensures Comes(states, ops, c, h) && AllOrderly(states, ops)
    ensures |c.items| == 2 && c.items[0].lock == 1 && c.users == {}
  {
    var one, two := OneFile(false, 1, {7}, map[7 := 0]), OneFile(false, 2, {7}, map[7 := 0]);
    var first := [InsertOp(0, "a", [65], 1), FetchOp("a", 7)];
    var h1 := Touched(OneInserted(files), 0);
    states := FileFetched(files);
    assert one.items[0 := two.items[0]] == two.items && {7} + {7} == {7} && map[7 := 0][7 := 0] == map[7 := 0];
    states := OneOp(states, first, one, h1, FetchOp("a", 7), two, Touched(h1, 0));
    c, h := OneFile(false, 1, {}, map[7 := 0]), Touched(h1, 0);
    assert two.items[0 := c.items[0]] == c.items;
    states := OneOp(states, first + [FetchOp("a", 7)], two, h, FinishOp(7), c, h);
    ops := first + [FetchOp("a", 7)] + [FinishOp(7)];
  }

  /** A file is fetched for a client that is gone; the next connection in its slot forgets the lock. */
  lemma LockLeaksOnNewConnection(files: Path -> nat) returns (states: seq<State>, ops: seq<Op>, c: Rep, h: History)
    ensures ops == [InsertOp(0, "a", [65], 1), FetchOp("a", 7), RenewOp(7)]
    ensures Comes(states, ops, c, h) && AllOrderly(states, ops)
    ensures |c.items| == 2 && c.items[0].lock == 1 && c.users == {}
  {
    var first := [InsertOp(0, "a", [65], 1), FetchOp("a", 7)];
    states := FileFetched(files);
    c, h := OneFile(false, 1, {}, map[7 := 0]), Touched(OneInserted(files), 0);
    states := OneOp(states, first, OneFile(false, 1, {7}, map[7 := 0]), h, RenewOp(7), c, h);
    ops := first + [RenewOp(7)];
  }

  // ----- a slot wiped while it is used -----

  /** What a fetch of the outdated file leaves, but for the first slot. */
  function Wiped(first: Item, free: set<int>, users: set<nat>, clients: map<nat, int>): Rep {
    Rep([first, Blank], map["a" := 0], map[0 := "a"], free, clients, 0, 0, map[], users)
  }

  lemma OutdatedFetched(users: set<nat>, clients: map<nat, int>, lock: int, client: nat)
    ensures FetchesOutdated(OneFile(true, lock, users, clients), "a")
    ensures Fetch(OneFile(true, lock, users, clients), "a", client)
         == (Wiped(Blank, {0, 1}, users + {client}, clients[client := 0]), Missing)
  {
    var c := OneFile(true, lock, users, clients);
    var locked := Put(c.items, 0, c.items[0].(lock := lock + 1));
    assert Put(locked, 0, Blank) == [Blank, Blank] && {1} + {0} == {0, 1};
    assert map[1 := 0 as int] - {1} == map[];
  }

  lemma WipedRefilled(lock: int, users: set<nat>, clients: map<nat, int>)
    ensures var c := Wiped(Blank.(lock := lock), {0, 1}, users, clients);
            && Takes(c, 0) && |Insert(c, 0, "b", [66], 2).items| == 2
            && Insert(c, 0, "b", [66], 2).items[0] == Item([66], lock, -1, 0, false, 2)
            && Insert(c, 0, "b", [66], 2).free == {1}
  {
    assert {0, 1} - {0} == {1};
  }

  /** What is recorded up to that fetch. */
  function OneModified(files: Path -> nat): History {
    OneInserted(files).(stale := {"a"})
  }

  lemma FileModified(files: Path -> nat, h: History)
    requires h == OneInserted(files) || h == Touched(OneInserted(files), 0)
    ensures Noted(h, 1) == h.(stale := {"a"})
  {
    assert (set p | p in h.latest && h.files(p) == h.kernel[1]) == {"a"};
  }

  lemma FileMarked(lock: int, users: set<nat>, clients: map<nat, int>)
    ensures Modified(OneFile(false, lock, users, clients), 1) == OneFile(true, lock, users, clients)
  {
    var c, d := OneFile(false, lock, users, clients), OneFile(true, lock, users, clients);
    assert c.items[0 := d.items[0]] == d.items;
  }

  lemma OutdatedThenFetched(files: Path -> nat) returns (states: seq<State>)
    ensures Comes(states, [InsertOp(0, "a", [65], 1), ModifyOp(1), FetchOp("a", 7)],
                  Wiped(Blank, {0, 1}, {7}, map[7 := 0]), OneModified(files).(kernel := map[]))
  {
    var none: map<nat, int> := map[];
    var c, d := OneFile(true, 0, {}, none), Wiped(Blank, {0, 1}, {7}, map[7 := 0]);
    states := FirstInserted(files);
    FileModified(files, OneInserted(files));
    FileMarked(0, {}, none);
    states := OneOp(states, [InsertOp(0, "a", [65], 1)], Fresh, OneInserted(files), ModifyOp(1), c,
                    OneModified(files));
    OutdatedFetched({}, none, 0, 7);
    assert {} + {7} == {7} && none[7 := 0] == map[7 := 0];
    assert OneModified(files).kernel - {1} == map[];
    states := OneOp(states, [InsertOp(0, "a", [65], 1)] + [ModifyOp(1)], c, OneModified(files), FetchOp("a", 7), d,
                    OneModified(files).(kernel := map[]));
    assert [InsertOp(0, "a", [65], 1)] + [ModifyOp(1)] + [FetchOp("a", 7)]
        == [InsertOp(0, "a", [65], 1), ModifyOp(1), FetchOp("a", 7)];
  }

  /** A client that uses no file fetches an outdated one: its lock is wiped, and giving it back leaves -1, so the slot,
      once refilled, is never evicted. */
  lemma LockBelowZero(files: Path -> nat) returns (states: seq<State>, ops: seq<Op>, c: Rep, h: History)
    ensures ops == [InsertOp(0, "a", [65], 1), ModifyOp(1), FetchOp("a", 7), FinishOp(7), InsertOp(0, "b", [66], 2)]
    ensures Comes(states, ops, c, h)
    ensures c.users == {} && c.free == {1} && |c.items| == 2 && c.items[0] == Item([66], -1, -1, 0, false, 2)
  {
    var before := [InsertOp(0, "a", [65], 1), ModifyOp(1), FetchOp("a", 7)];
    var wiped, freed := Wiped(Blank, {0, 1}, {7}, map[7 := 0]), Wiped(Blank.(lock := -1), {0, 1}, {}, map[7 := 0]);
    var g, last := OneModified(files).(kernel := map[]), InsertOp(0, "b", [66], 2);
    states := OutdatedThenFetched(files);
    assert wiped.items[0 := Blank.(lock := -1)] == freed.items && {7} - {7} == {};
    states := OneOp(states, before, wiped, g, FinishOp(7), freed, g);
    WipedRefilled(-1, {}, map[7 := 0]);
    c, h := Done(freed, last), Recorded(freed, g, last);
    states := OneOp(states, before + [FinishOp(7)], freed, g, last, c, h);
    ops := before + [FinishOp(7)] + [last];
  }

  // ----- one file under two paths -----

  /** Both slots are occupied, and watched by one id, which leads to the second. */
  function TwoNames(outdated: bool): Rep {
    Rep([Item([65], 0, 1, -1, false, 1), Item([66], 0, -1, 0, outdated, 1)], map["a" := 0, "//a" := 1],
        map[0 := "a", 1 := "//a"], {}, map[], 1, 0, map[1 := 1], {})
  }

  lemma SecondNameInserted()
    ensures Takes(Fresh, 1) && Insert(Fresh, 1, "//a", [66], 1) == TwoNames(false)
    ensures OtherName(Fresh, 1, "//a", 1)
  {
    var u := Claim(Fresh, 1);
    assert u == Fresh.(free := {});
    var linked := SetNext(u.items, 0, 1);
    assert linked == [Item([65], 0, 1, -1, false, 1), Blank];
    assert Put(linked, 1, Blank.(buffer := [66], watch := 1, prev := 0)) == TwoNames(false).items;
    assert 0 in Fresh.idxToPath && At(Fresh.items, 0).watch == 1 && Fresh.idxToPath[0] != "//a";
  }

  /** A file is cached under two paths, which the kernel watches by one id, and then modified: only the path inserted
      last is outdated, and a fetch of the other returns the old bytes. */
  lemma SharedWatchServesStale(files: Path -> nat, client: nat)
      returns (states: seq<State>, ops: seq<Op>, c: Rep, h: History)
    requires files("a") == files("//a")
    ensures ops == [InsertOp(0, "a", [65], 1), InsertOp(1, "//a", [66], 1), ModifyOp(1)]
    ensures Comes(states, ops, c, h)
    ensures "a" in h.stale && Fetch(c, "a", client).1 == Found([65])
  {
    var h1, two := OneInserted(files), TwoNames(false);
    var op := InsertOp(1, "//a", [66], 1);
    var h2 := Recorded(Fresh, h1, op);
    states := FirstInserted(files);
    SecondNameInserted();
    assert h1.kernel[1] == files("//a");
    states := OneOp(states, [InsertOp(0, "a", [65], 1)], Fresh, h1, op, two, h2);
    c, h := TwoNames(true), Noted(h2, 1);
    assert two.items[1 := c.items[1]] == c.items;
    states := OneOp(states, [InsertOp(0, "a", [65], 1)] + [op], two, h2, ModifyOp(1), c, h);
    ops := [InsertOp(0, "a", [65], 1)] + [op] + [ModifyOp(1)];
  }

  // ----- a buffer refilled under a write -----

  const Writing: map<nat, CacheServing.Reading> := map[0 := CacheServing.Reading(7, 0, [65])]

  ghost predicate Reaches(files: Path -> nat, vs: seq<CacheServing.Serving>, acts: seq<CacheServing.Act>,
                          c: Rep, h: History, writes: map<nat, CacheServing.Reading>) {
    CacheServing.Run(2, files, vs, acts) && vs[|acts|] == CacheServing.Serving(State(c, h), writes)
  }

  lemma OneOther(files: Path -> nat, vs: seq<CacheServing.Serving>, acts: seq<CacheServing.Act>, c: Rep, h: History,
                 writes: map<nat, CacheServing.Reading>, op: Op, d: Rep, g: History)
      returns (more: seq<CacheServing.Serving>)
    requires Reaches(files, vs, acts, c, h, writes)
    requires !op.FetchOp? && Possible(c, h, op) && Done(c, op) == d && Recorded(c, h, op) == g
    ensures Reaches(files, more, acts + [CacheServing.Other(op)], d, g, writes)
  {
    var u := CacheServing.Serving(State(d, g), writes);
    CacheServing.RunSnoc(2, files, vs, acts, CacheServing.Other(op), u);
    more := vs + [u];
  }

  lemma FirstCached(files: Path -> nat) returns (vs: seq<CacheServing.Serving>, acts: seq<CacheServing.Act>)
    ensures acts == [CacheServing.Other(InsertOp(0, "a", [65], 1))]
    ensures Reaches(files, vs, acts, Fresh, OneInserted(files), map[])
  {
    var states := FirstInserted(files);
    assert Leads(states[0], InsertOp(0, "a", [65], 1), states[1]);
    vs := [CacheServing.Serving(State(Empty(2), NoHistory(files)), map[])];
    acts := [];
    assert Reaches(files, vs, acts, Empty(2), NoHistory(files), map[]);
    vs := OneOther(files, vs, acts, Empty(2), NoHistory(files), map[], InsertOp(0, "a", [65], 1), Fresh,
                   OneInserted(files));
    acts := acts + [CacheServing.Other(InsertOp(0, "a", [65], 1))];
  }

  lemma ServedOnce(files: Path -> nat) returns (vs: seq<CacheServing.Serving>, acts: seq<CacheServing.Act>)
    ensures acts == [CacheServing.Other(InsertOp(0, "a", [65], 1)), CacheServing.Serve(0, "a", 7)]
    ensures Reaches(files, vs, acts, OneFile(false, 1, {7}, map[7 := 0]), Touched(OneInserted(files), 0), Writing)
  {
    var c, h := OneFile(false, 1, {7}, map[7 := 0]), Touched(OneInserted(files), 0);
    var u := CacheServing.Serving(State(c, h), Writing);
    vs, acts := FirstCached(files);
    assert Fresh.items[0 := c.items[0]] == c.items;
    CacheServing.RunSnoc(2, files, vs, acts, CacheServing.Serve(0, "a", 7), u);
    vs, acts := vs + [u], acts + [CacheServing.Serve(0, "a", 7)];
  }

  lemma Killed(files: Path -> nat) returns (vs: seq<CacheServing.Serving>, acts: seq<CacheServing.Act>)
    ensures acts == [CacheServing.Other(InsertOp(0, "a", [65], 1)), CacheServing.Serve(0, "a", 7),
                     CacheServing.Other(FinishOp(7))]
    ensures Reaches(files, vs, acts, OneFile(false, 0, {}, map[7 := 0]), Touched(OneInserted(files), 0), Writing)
  {
    var c, d := OneFile(false, 1, {7}, map[7 := 0]), OneFile(false, 0, {}, map[7 := 0]);
    var h := Touched(OneInserted(files), 0);
    vs, acts := ServedOnce(files);
    assert c.items[0 := d.items[0]] == d.items;
    vs := OneOther(files, vs, acts, c, h, Writing, FinishOp(7), d, h);
    acts := acts + [CacheServing.Other(FinishOp(7))];
  }

  /** "a" and "b" are cached, and nothing is locked. */
  const Both: Rep :=
    Rep([Item([65], 0, 1, -1, false, 1), Item([66], 0, -1, 0, false, 2)], map["a" := 0, "b" := 1],
        map[0 := "a", 1 := "b"], {}, map[7 := 0], 1, 0, map[1 := 0, 2 := 1], {})

  function BothInserted(files: Path -> nat): History {
    History(files, map["a" := [65], "b" := [66]], map[1 := files("a"), 2 := files("b")], {1, 2}, {},
            map[0 := 1, 1 := 2], 3)
  }

  lemma SecondInserted()
    ensures var c := OneFile(false, 0, {}, map[7 := 0]);
            && Takes(c, 1) && Insert(c, 1, "b", [66], 2) == Both && !OtherName(c, 1, "b", 2)
  {
    var c := OneFile(false, 0, {}, map[7 := 0]);
    assert Claim(c, 1) == c.(free := {});
    var linked := SetNext(c.items, 0, 1);
    assert linked == [Item([65], 0, 1, -1, false, 1), Blank];
    assert Put(linked, 1, Blank.(buffer := [66], watch := 2, prev := 0)) == Both.items;
  }

  lemma SecondRecorded(files: Path -> nat)
    requires files("a") != files("b")
    ensures var c, h := OneFile(false, 0, {}, map[7 := 0]), Touched(OneInserted(files), 0);
            WatchFor(c, h, "b", 2) && Inserted(c, h, 1, "b", [66], 2) == BothInserted(files)
  {
    var none: set<Path> := {};
    assert none - {"b"} == none && {1} + {2} == {1, 2};
  }

  lemma SecondCached(files: Path -> nat) returns (vs: seq<CacheServing.Serving>, acts: seq<CacheServing.Act>)
    requires files("a") != files("b")
    ensures acts == [CacheServing.Other(InsertOp(0, "a", [65], 1)), CacheServing.Serve(0, "a", 7),
                     CacheServing.Other(FinishOp(7)), CacheServing.Other(InsertOp(1, "b", [66], 2))]
    ensures Reaches(files, vs, acts, Both, BothInserted(files), Writing)
  {
    vs, acts := Killed(files);
    SecondInserted();
    SecondRecorded(files);
    vs := OneOther(files, vs, acts, OneFile(false, 0, {}, map[7 := 0]), Touched(OneInserted(files), 0), Writing,
                   InsertOp(1, "b", [66], 2), Both, BothInserted(files));
    acts := acts + [CacheServing.Other(InsertOp(1, "b", [66], 2))];
  }

  lemma FirstEvicted(files: Path -> nat)
    requires files("a") != files("c") && files("b") != files("c")
    ensures var h, op := BothInserted(files), InsertOp(0, "c", [67], 3);
            && Possible(Both, h, op) && Orderly(Both, op)
            && |Done(Both, op).items| == 2 && Done(Both, op).items[0].buffer == [67]
  {
    assert KernelAfterClaim(Both, BothInserted(files)) == map[2 := files("b")];
  }

  lemma Refilled(files: Path -> nat, vs: seq<CacheServing.Serving>, acts: seq<CacheServing.Act>)
      returns (more: seq<CacheServing.Serving>)
    requires files("a") != files("c") && files("b") != files("c")
    requires Reaches(files, vs, acts, Both, BothInserted(files), Writing)
    ensures CacheServing.Run(2, files, more, acts + [CacheServing.Other(InsertOp(0, "c", [67], 3))])
    ensures var last := more[|acts| + 1];
            last.writes == Writing && |last.s.c.items| == 2 && last.s.c.items[0].buffer == [67]
  {
    var last := InsertOp(0, "c", [67], 3);
    FirstEvicted(files);
    more := OneOther(files, vs, acts, Both, BothInserted(files), Writing, last, Done(Both, last),
                     Recorded(Both, BothInserted(files), last));
  }

  /** A client's lock is given back while its write from the cache is in flight: its slot is refilled under it. */
  lemma KilledClientsBufferRefilled(files: Path -> nat)
      returns (vs: seq<CacheServing.Serving>, acts: seq<CacheServing.Act>)
    requires files("a") != files("b") && files("b") != files("c") && files("a") != files("c")
    ensures CacheServing.Run(2, files, vs, acts)
    ensures acts == [CacheServing.Other(InsertOp(0, "a", [65], 1)), CacheServing.Serve(0, "a", 7),
                     CacheServing.Other(FinishOp(7)), CacheServing.Other(InsertOp(1, "b", [66], 2)),
                     CacheServing.Other(InsertOp(0, "c", [67], 3))]
    ensures vs[5].writes == Writing && |vs[5].s.c.items| == 2 && vs[5].s.c.items[0].buffer == [67]
  {
    vs, acts := SecondCached(files);
    vs := Refilled(files, vs, acts);
    acts := acts + [CacheServing.Other(InsertOp(0, "c", [67], 3))];
  }

  // ----- a buffer wiped under a write -----

  lemma ServedThenModified(files: Path -> nat) returns (vs: seq<CacheServing.Serving>, acts: seq<CacheServing.Act>)
    ensures acts == [CacheServing.Other(InsertOp(0, "a", [65], 1)), CacheServing.Serve(0, "a", 7),
                     CacheServing.Other(ModifyOp(1))]
    ensures Reaches(files, vs, acts, OneFile(true, 1, {7}, map[7 := 0]),
                    Touched(OneInserted(files), 0).(stale := {"a"}), Writing)
  {
    var h := Touched(OneInserted(files), 0);
    vs, acts := ServedOnce(files);
    FileModified(files, h);
    FileMarked(1, {7}, map[7 := 0]);
    vs := OneOther(files, vs, acts, OneFile(false, 1, {7}, map[7 := 0]), h, Writing, ModifyOp(1),
                   OneFile(true, 1, {7}, map[7 := 0]), h.(stale := {"a"}));
    acts := acts + [CacheServing.Other(ModifyOp(1))];
  }

  lemma WipedByOther(files: Path -> nat) returns (vs: seq<CacheServing.Serving>, acts: seq<CacheServing.Act>)
    ensures acts == [CacheServing.Other(InsertOp(0, "a", [65], 1)), CacheServing.Serve(0, "a", 7),
                     CacheServing.Other(ModifyOp(1)), CacheServing.Serve(1, "a", 8)]
    ensures Reaches(files, vs, acts, Wiped(Blank, {0, 1}, {7, 8}, map[7 := 0, 8 := 0]),
                    Touched(OneInserted(files), 0).(stale := {"a"}, kernel := map[]), Writing)
  {
    var h := Touched(OneInserted(files), 0).(stale := {"a"});
    var d, g := Wiped(Blank, {0, 1}, {7, 8}, map[7 := 0, 8 := 0]), h.(kernel := map[]);
    var u := CacheServing.Serving(State(d, g), Writing);
    vs, acts := ServedThenModified(files);
    OutdatedFetched({7}, map[7 := 0], 1, 8);
    assert {7} + {8} == {7, 8} && map[7 := 0][8 := 0] == map[7 := 0, 8 := 0];
    assert h.kernel - {1} == map[];
    CacheServing.RunSnoc(2, files, vs, acts, CacheServing.Serve(1, "a", 8), u);
    vs, acts := vs + [u], acts + [CacheServing.Serve(1, "a", 8)];
  }

  /** A file is modified while it is being written to a client, and fetched by another: the slot is wiped and freed
      under the write, locked as it is, and refilled. */
  lemma OutdatedBufferRefilled(files: Path -> nat)
      returns (vs: seq<CacheServing.Serving>, acts: seq<CacheServing.Act>)
    ensures CacheServing.Run(2, files, vs, acts)
    ensures acts == [CacheServing.Other(InsertOp(0, "a", [65], 1)), CacheServing.Serve(0, "a", 7),
                     CacheServing.Other(ModifyOp(1)), CacheServing.Serve(1, "a", 8),
                     CacheServing.Other(InsertOp(0, "b", [66], 2))]
    ensures vs[5].writes == Writing && |vs[5].s.c.items| == 2 && vs[5].s.c.items[0].buffer == [66]
  {
    var c, h := Wiped(Blank, {0, 1}, {7, 8}, map[7 := 0, 8 := 0]),
                Touched(OneInserted(files), 0).(stale := {"a"}, kernel := map[]);
    var last := InsertOp(0, "b", [66], 2);
    vs, acts := WipedByOther(files);
    WipedRefilled(0, {7, 8}, map[7 := 0, 8 := 0]);
    vs := OneOther(files, vs, acts, c, h, Writing, last, Done(c, last), Recorded(c, h, last));
    acts := acts + [CacheServing.Other(last)];
  }
}
