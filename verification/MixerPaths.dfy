/** The path matrix of a mixer manager, drivers/audio/framework/audio_sw_mixer.c: sources and
    targets attach and detach, and between every source and every target there is one path.

    A path stands in two hash lists, that of its source under the key of its target and that
    of its target under the key of its source.  Handles stand for addresses. */
module MixerPaths {

  const NUM_TARGET_THREAD: nat := 2
  const LAST_KEY: nat := 0xFFFF_FFFF

  /** Keys are handed out in turn and start again after the last one. */
  function NextKey(key: nat): nat { if key == LAST_KEY then 0 else key + 1 }

  datatype Option<T> = None | Some(value: T)

  /** A place in a path list: the key and the order by which it is kept, and the path. */
  datatype Entry = Entry(key: nat, order: nat, path: nat)

  datatype Path = Path(source: nat, target: nat)

  datatype Source = Source(key: nat, order: nat, paths: seq<Entry>, numPath: nat)

  datatype Target =
    Target(key: nat, order: nat, paths: seq<Entry>, numPath: nat, thread: nat, host: bool, start: bool)

  datatype Thread = Thread(avail: bool, target: Option<nat>)

  // ---------------------------------------------------------------- lists kept in order

  /** Higher orders come first. */
  ghost predicate Sorted(list: seq<Entry>) {
    forall i, j :: 0 <= i < j < |list| ==> list[i].order >= list[j].order
  }

  ghost predicate Distinct<T(!new)>(list: seq<T>) {
    forall i, j :: 0 <= i < j < |list| ==> list[i] != list[j]
  }

  /** Where an entry goes: before the first of lower order, so behind its equals. */
  method PlaceInOrder(list: seq<Entry>, e: Entry) returns (k: nat)
    ensures k <= |list|
    ensures forall i :: 0 <= i < k ==> list[i].order >= e.order
    ensures k < |list| ==> list[k].order < e.order
  {
    k := 0;
    while k < |list|
      invariant k <= |list|
      invariant forall i :: 0 <= i < k ==> list[i].order >= e.order
    {
      if e.order > list[k].order {
        return;
      }
      k := k + 1;
    }
  }

  method AddInOrder(list: seq<Entry>, e: Entry) returns (r: seq<Entry>)
    ensures forall x :: x in r <==> x in list || x == e
    ensures Sorted(list) ==> Sorted(r)
    ensures Distinct(list) && e !in list ==> Distinct(r)
    ensures |r| == |list| + 1
    ensures exists k :: 0 <= k <= |list| && r == list[..k] + [e] + list[k..] && (k < |list| ==> list[k].order < e.order)
                        && forall i :: 0 <= i < k ==> list[i].order >= e.order
  {
    var k := PlaceInOrder(list, e);
    r := Inserted(list, e, k);
    InsertedAt(list, e, k);
  }

  function Inserted<T>(list: seq<T>, e: T, k: nat): seq<T>
    requires k <= |list|
  {
    list[..k] + [e] + list[k..]
  }

  lemma InsertedAt<T>(list: seq<T>, e: T, k: nat)
    requires k <= |list|
    ensures forall x :: x in Inserted(list, e, k) <==> x in list || x == e
  {
    assert list == list[..k] + list[k..];
  }

  /** The place of a key in a list; its length if the key is not there. */
  method Find(list: seq<Entry>, key: nat) returns (k: nat)
    ensures k <= |list| && (k < |list| ==> list[k].key == key)
    ensures k == |list| ==> forall e :: e in list ==> e.key != key
  {
    k := 0;
    while k < |list| && list[k].key != key
      invariant k <= |list|
      invariant forall i :: 0 <= i < k ==> list[i].key != key
    {
      k := k + 1;
    }
  }

  function Without<T>(list: seq<T>, k: nat): seq<T>
    requires k < |list|
  {
    list[..k] + list[k + 1..]
  }

  lemma WithoutHas<T(!new)>(list: seq<T>, k: nat)
    requires k < |list| && Distinct(list)
    ensures forall x :: x in Without(list, k) <==> x in list && x != list[k]
    ensures Distinct(Without(list, k)) && |Without(list, k)| == |list| - 1
  {
    var r := Without(list, k);
    forall x | x in list && x != list[k]
      ensures x in r
    {
      var i :| 0 <= i < |list| && list[i] == x;
      assert r[if i < k then i else i - 1] == x;
    }
  }

  lemma WithoutSorted(list: seq<Entry>, k: nat)
    requires k < |list| && Sorted(list)
    ensures Sorted(Without(list, k))
  {
  }

  // ---------------------------------------------------------------- the manager

  /** A manager's tables as a value. */
  datatype Tables = Tables(sources: map<nat, Source>, targets: map<nat, Target>, paths: map<nat, Path>)
  {
    /** The entry that a path has in the list of its source, and in that of its target. */
    function SourceEntry(p: nat): Entry
      requires p in paths && paths[p].target in targets
    {
      Entry(targets[paths[p].target].key, targets[paths[p].target].order, p)
    }

    function TargetEntry(p: nat): Entry
      requires p in paths && paths[p].source in sources
    {
      Entry(sources[paths[p].source].key, sources[paths[p].source].order, p)
    }

    /** The list of a source holds exactly its paths, each once, under the keys of their
        targets and in the order of these, and its count is right. */
    ghost predicate SourceRow(s: nat)
      requires s in sources
    {
      var row := sources[s].paths;
      && Distinct(row) && Sorted(row) && sources[s].numPath == |row|
      && (forall e :: e in row <==>
            e.path in paths && paths[e.path].source == s && paths[e.path].target in targets && e == SourceEntry(e.path))
    }

    ghost predicate TargetRow(t: nat)
      requires t in targets
    {
      var row := targets[t].paths;
      && Distinct(row) && Sorted(row) && targets[t].numPath == |row|
      && (forall e :: e in row <==>
            e.path in paths && paths[e.path].target == t && paths[e.path].source in sources && e == TargetEntry(e.path))
    }

    /** Paths lead from sources to targets, no two between the same, and all lists are right. */
    ghost predicate Rows() {
      && (forall p :: p in paths ==> paths[p].source in sources && paths[p].target in targets)
      && (forall p, q :: p in paths && q in paths && paths[p] == paths[q] ==> p == q)
      && (forall s :: s in sources ==> SourceRow(s))
      && (forall t :: t in targets ==> TargetRow(t))
    }

    /** Different sources have different keys, and so have targets. */
    ghost predicate Keys(sourceKey: nat, targetKey: nat) {
      && (forall s :: s in sources ==> sources[s].key < sourceKey)
      && (forall t :: t in targets ==> targets[t].key < targetKey)
      && (forall s, u :: s in sources && u in sources && sources[s].key == sources[u].key ==> s == u)
      && (forall t, u :: t in targets && u in targets && targets[t].key == targets[u].key ==> t == u)
    }

    /** There is a path from s to t. */
    ghost predicate Joined(s: nat, t: nat) {
      exists p :: p in paths && paths[p] == Path(s, t)
    }
  }

  /** Only paths and lists may differ. */
  ghost predicate SameEnds(a: Tables, b: Tables) {
    && b.sources.Keys == a.sources.Keys && b.targets.Keys == a.targets.Keys
    && (forall s :: s in a.sources ==> b.sources[s].key == a.sources[s].key && b.sources[s].order == a.sources[s].order)
    && (forall t :: t in a.targets ==> SameTarget(a.targets[t], b.targets[t]))
  }

  lemma SameEndsAs(a: Tables, b: Tables)
    ensures a == b ==> SameEnds(a, b)
    ensures SameEnds(a, b) ==> b.sources.Keys == a.sources.Keys && b.targets.Keys == a.targets.Keys
  {
  }

  lemma SameEndsOn(a: Tables, b: Tables, c: Tables)
    requires SameEnds(a, b) && SameEnds(b, c)
    ensures SameEnds(a, c)
    ensures c.sources.Keys == a.sources.Keys && c.targets.Keys == a.targets.Keys
  {
  }

  /** The ends that were there before and still are keep all but their paths. */
  ghost predicate EndsStay(a: Tables, b: Tables) {
    && (forall s :: s in a.sources && s in b.sources ==>
          b.sources[s].key == a.sources[s].key && b.sources[s].order == a.sources[s].order)
    && (forall t :: t in a.targets && t in b.targets ==> SameTarget(a.targets[t], b.targets[t]))
  }

  predicate SameTarget(a: Target, b: Target) {
    b.key == a.key && b.order == a.order && b.thread == a.thread && b.host == a.host
  }

  /** Whether mixing has started, where it is not the point of the call. */
  ghost predicate StartsStay(was: map<nat, Target>, now: map<nat, Target>) {
    forall t :: t in was && t in now ==> now[t].start == was[t].start
  }

  /** Mixing ends where no path is left, and nowhere else. */
  ghost predicate StartsFall(was: map<nat, Target>, now: map<nat, Target>) {
    forall t :: t in was && t in now ==> now[t].start == (was[t].start && now[t].numPath != 0)
  }

  lemma EndsUnmoved(tb: Tables)
    ensures EndsStay(tb, tb)
  {
  }

  lemma EndsAdded(was: Tables, mid: Tables, now: Tables)
    requires (forall s :: s in was.sources ==> s in mid.sources && mid.sources[s] == was.sources[s])
    requires (forall t :: t in was.targets ==> t in mid.targets && mid.targets[t] == was.targets[t])
    requires SameEnds(mid, now)
    ensures EndsStay(was, now)
  {
  }

  lemma EndsRemoved(was: Tables, mid: Tables, now: Tables)
    requires SameEnds(was, mid)
    requires (forall s :: s in now.sources ==> s in mid.sources && now.sources[s] == mid.sources[s])
    requires (forall t :: t in now.targets ==> t in mid.targets && now.targets[t] == mid.targets[t])
    ensures EndsStay(was, now)
  {
  }

  /** A list with one entry more, where it belongs. */
  ghost predicate Grown(list: seq<Entry>, e: Entry, r: seq<Entry>) {
    && (forall x :: x in r <==> x in list || x == e)
    && (Sorted(list) ==> Sorted(r)) && (Distinct(list) && e !in list ==> Distinct(r))
  }

  /** A list with one entry less. */
  ghost predicate Shrunk(list: seq<Entry>, e: Entry, r: seq<Entry>) {
    && (forall x :: x in r <==> x in list && x != e)
    && (Sorted(list) ==> Sorted(r)) && (Distinct(list) ==> Distinct(r))
  }

  function Put(tb: Tables, s: nat, row: seq<Entry>, t: nat, column: seq<Entry>, start: bool, paths: map<nat, Path>): Tables
    requires s in tb.sources && t in tb.targets
  {
    Tables(tb.sources[s := tb.sources[s].(paths := row, numPath := |row|)],
           tb.targets[t := tb.targets[t].(paths := column, numPath := |column|, start := start)], paths)
  }

  /** A new path with its two entries keeps all lists right. */
  lemma PathAdded(tb: Tables, s: nat, t: nat, p: nat, row: seq<Entry>, column: seq<Entry>)
    requires tb.Rows() && s in tb.sources && t in tb.targets && p !in tb.paths && !tb.Joined(s, t)
    requires Grown(tb.sources[s].paths, Entry(tb.targets[t].key, tb.targets[t].order, p), row)
    requires Grown(tb.targets[t].paths, Entry(tb.sources[s].key, tb.sources[s].order, p), column)
    ensures var now := Put(tb, s, row, t, column, tb.targets[t].start, tb.paths[p := Path(s, t)]);
      now.Rows() && SameEnds(tb, now)
      && forall u: nat, v: nat :: now.Joined(u, v) <==> tb.Joined(u, v) || (u == s && v == t)
  {
    hide Tables.SourceRow, Tables.TargetRow, Grown;
    var now := Put(tb, s, row, t, column, tb.targets[t].start, tb.paths[p := Path(s, t)]);
    forall u | u in now.sources
      ensures now.SourceRow(u)
    {
      assert tb.SourceRow(u);
      AddedSource(tb, now, s, t, p, u);
    }
    forall u | u in now.targets
      ensures now.TargetRow(u)
    {
      assert tb.TargetRow(u);
      AddedTarget(tb, now, s, t, p, u);
    }
    forall u: nat, v: nat
      ensures now.Joined(u, v) <==> tb.Joined(u, v) || (u == s && v == t)
    {
      JoinedAdded(tb.paths, tb, now, p, Path(s, t), u, v);
    }
  }

  lemma JoinedAdded(paths: map<nat, Path>, tb: Tables, now: Tables, p: nat, path: Path, u: nat, v: nat)
    requires tb.paths == paths && p !in paths && now.paths == paths[p := path]
    ensures now.Joined(u, v) <==> tb.Joined(u, v) || path == Path(u, v)
  {
    if tb.Joined(u, v) {
      var q :| q in paths && paths[q] == Path(u, v);
      assert q in now.paths && now.paths[q] == Path(u, v);
    }
    if path == Path(u, v) {
      assert p in now.paths && now.paths[p] == Path(u, v);
    }
  }

  lemma AddedSource(tb: Tables, now: Tables, s: nat, t: nat, p: nat, u: nat)
    requires s in tb.sources && t in tb.targets && u in tb.sources && tb.SourceRow(u) && p !in tb.paths
    requires SameEnds(tb, now) && now.paths == tb.paths[p := Path(s, t)]
    requires u != s ==> now.sources[u] == tb.sources[u]
    requires u == s ==>
               && Grown(tb.sources[s].paths, Entry(tb.targets[t].key, tb.targets[t].order, p), now.sources[s].paths)
               && now.sources[s].numPath == |now.sources[s].paths|
    ensures now.SourceRow(u)
  {
  }

  lemma AddedTarget(tb: Tables, now: Tables, s: nat, t: nat, p: nat, u: nat)
    requires s in tb.sources && t in tb.targets && u in tb.targets && tb.TargetRow(u) && p !in tb.paths
    requires SameEnds(tb, now) && now.paths == tb.paths[p := Path(s, t)]
    requires u != t ==> now.targets[u] == tb.targets[u]
    requires u == t ==>
               && Grown(tb.targets[t].paths, Entry(tb.sources[s].key, tb.sources[s].order, p), now.targets[t].paths)
               && now.targets[t].numPath == |now.targets[t].paths|
    ensures now.TargetRow(u)
  {
  }

  /** Taking a path out of both lists and away keeps them right. */
  lemma PathRemoved(tb: Tables, s: nat, t: nat, p: nat, row: seq<Entry>, column: seq<Entry>, start: bool)
    requires tb.Rows() && p in tb.paths && tb.paths[p] == Path(s, t)
    requires Shrunk(tb.sources[s].paths, tb.SourceEntry(p), row)
    requires Shrunk(tb.targets[t].paths, tb.TargetEntry(p), column)
    ensures var now := Put(tb, s, row, t, column, start, tb.paths - {p});
      now.Rows() && SameEnds(tb, now)
      && forall u: nat, v: nat :: now.Joined(u, v) <==> tb.Joined(u, v) && !(u == s && v == t)
  {
    hide Tables.SourceRow, Tables.TargetRow, Shrunk;
    var now := Put(tb, s, row, t, column, start, tb.paths - {p});
    forall u | u in now.sources
      ensures now.SourceRow(u)
    {
      assert tb.SourceRow(u);
      RemovedSource(tb, now, s, t, p, u);
    }
    forall u | u in now.targets
      ensures now.TargetRow(u)
    {
      assert tb.TargetRow(u);
      RemovedTarget(tb, now, s, t, p, u);
    }
    forall u: nat, v: nat
      ensures now.Joined(u, v) <==> tb.Joined(u, v) && !(u == s && v == t)
    {
      JoinedRemoved(tb, now, p, u, v);
    }
  }

  lemma JoinedRemoved(tb: Tables, now: Tables, p: nat, u: nat, v: nat)
    requires p in tb.paths && now.paths == tb.paths - {p}
    requires forall q, r :: q in tb.paths && r in tb.paths && tb.paths[q] == tb.paths[r] ==> q == r
    ensures now.Joined(u, v) <==> tb.Joined(u, v) && tb.paths[p] != Path(u, v)
  {
    if tb.Joined(u, v) && tb.paths[p] != Path(u, v) {
      var q :| q in tb.paths && tb.paths[q] == Path(u, v);
      assert q in now.paths && now.paths[q] == Path(u, v);
    }
  }

  lemma RemovedSource(tb: Tables, now: Tables, s: nat, t: nat, p: nat, u: nat)
    requires u in tb.sources && tb.SourceRow(u) && p in tb.paths && tb.paths[p] == Path(s, t)
    requires s in tb.sources && t in tb.targets && SameEnds(tb, now) && now.paths == tb.paths - {p}
    requires u != s ==> now.sources[u] == tb.sources[u]
    requires u == s ==>
               && Shrunk(tb.sources[s].paths, tb.SourceEntry(p), now.sources[s].paths)
               && now.sources[s].numPath == |now.sources[s].paths|
    ensures now.SourceRow(u)
  {
  }

  lemma RemovedTarget(tb: Tables, now: Tables, s: nat, t: nat, p: nat, u: nat)
    requires u in tb.targets && tb.TargetRow(u) && p in tb.paths && tb.paths[p] == Path(s, t)
    requires s in tb.sources && t in tb.targets && SameEnds(tb, now) && now.paths == tb.paths - {p}
    requires u != t ==> now.targets[u] == tb.targets[u]
    requires u == t ==>
               && Shrunk(tb.targets[t].paths, tb.TargetEntry(p), now.targets[t].paths)
               && now.targets[t].numPath == |now.targets[t].paths|
    ensures now.TargetRow(u)
  {
  }

  // ---------------------------------------------------------------- what the tables amount to

  /** Each target has a thread of its own, and only threads without one are to be had. */
  ghost predicate Owned(targets: map<nat, Target>, threads: seq<Thread>) {
    && |threads| == NUM_TARGET_THREAD
    && (forall i :: 0 <= i < |threads| ==>
          && threads[i].avail == threads[i].target.None?
          && (threads[i].target.Some? ==>
                threads[i].target.value in targets && targets[threads[i].target.value].thread == i))
    && (forall t :: t in targets ==>
          targets[t].thread < NUM_TARGET_THREAD && threads[targets[t].thread].target == Some(t))
  }

  /** Thread i is to be had, and none before it. */
  ghost predicate FirstAvailable(threads: seq<Thread>, i: nat) {
    i < |threads| && threads[i].avail && forall j :: 0 <= j < i ==> !threads[j].avail
  }

  ghost predicate OneHost(targets: map<nat, Target>) {
    forall t, u :: t in targets && u in targets && targets[t].host && targets[u].host ==> t == u
  }

  /** The lists name every end once; targets are in order. */
  ghost predicate Listed(tb: Tables, sourceList: seq<nat>, targetList: seq<nat>) {
    && Distinct(sourceList) && (forall s :: s in sourceList <==> s in tb.sources)
    && Distinct(targetList) && (forall t :: t in targetList <==> t in tb.targets)
    && InOrder(tb.targets, targetList)
  }

  ghost predicate InOrder(targets: map<nat, Target>, list: seq<nat>)
    requires forall t :: t in list ==> t in targets
  {
    forall i, j :: 0 <= i < j < |list| ==> targets[list[i]].order >= targets[list[j]].order
  }

  /** From every source to every target there is a path, and no others. */
  ghost predicate Full(tb: Tables) {
    forall u: nat, v: nat :: tb.Joined(u, v) <==> u in tb.sources && v in tb.targets
  }

  /** Each path stands in one source list and one target list, once, under the right keys. */
  lemma PathStandsOnce(tb: Tables, p: nat)
    requires tb.Rows() && p in tb.paths
    ensures forall s, i :: s in tb.sources && 0 <= i < |tb.sources[s].paths| && tb.sources[s].paths[i].path == p ==>
              s == tb.paths[p].source && tb.sources[s].paths[i] == tb.SourceEntry(p)
    ensures forall t, i :: t in tb.targets && 0 <= i < |tb.targets[t].paths| && tb.targets[t].paths[i].path == p ==>
              t == tb.paths[p].target && tb.targets[t].paths[i] == tb.TargetEntry(p)
    ensures forall i, j :: 0 <= i < j < |tb.sources[tb.paths[p].source].paths| ==>
              !(tb.sources[tb.paths[p].source].paths[i].path == p == tb.sources[tb.paths[p].source].paths[j].path)
    ensures forall i, j :: 0 <= i < j < |tb.targets[tb.paths[p].target].paths| ==>
              !(tb.targets[tb.paths[p].target].paths[i].path == p == tb.targets[tb.paths[p].target].paths[j].path)
    ensures tb.SourceEntry(p) in tb.sources[tb.paths[p].source].paths
    ensures tb.TargetEntry(p) in tb.targets[tb.paths[p].target].paths
  {
    hide Sorted;
    forall s, i | s in tb.sources && 0 <= i < |tb.sources[s].paths| && tb.sources[s].paths[i].path == p
      ensures s == tb.paths[p].source && tb.sources[s].paths[i] == tb.SourceEntry(p)
    {
      assert tb.SourceRow(s) && tb.sources[s].paths[i] in tb.sources[s].paths;
    }
    forall t, i | t in tb.targets && 0 <= i < |tb.targets[t].paths| && tb.targets[t].paths[i].path == p
      ensures t == tb.paths[p].target && tb.targets[t].paths[i] == tb.TargetEntry(p)
    {
      assert tb.TargetRow(t) && tb.targets[t].paths[i] in tb.targets[t].paths;
    }
    assert tb.SourceRow(tb.paths[p].source) && tb.TargetRow(tb.paths[p].target);
  }

  /** So there are never more targets than threads, and as many exactly when none is left. */
  lemma ThreadsCount(targets: map<nat, Target>, threads: seq<Thread>)
    requires Owned(targets, threads) && |threads| == NUM_TARGET_THREAD
    ensures |targets.Keys| <= NUM_TARGET_THREAD
    ensures |targets.Keys| == NUM_TARGET_THREAD <==> forall i :: 0 <= i < NUM_TARGET_THREAD ==> !threads[i].avail
  {
    hide Owned, On;
    var a, b := On(threads[0]), On(threads[1]);
    OwnersAre(targets, threads);
    assert |a + b| == |a| + |b|;
  }

  /** The target on a thread. */
  function On(thread: Thread): set<nat> {
    if thread.target.Some? then {thread.target.value} else {}
  }

  lemma OwnersAre(targets: map<nat, Target>, threads: seq<Thread>)
    requires Owned(targets, threads)
    ensures targets.Keys == On(threads[0]) + On(threads[1]) && On(threads[0]) !! On(threads[1])
    ensures forall i :: 0 <= i < NUM_TARGET_THREAD ==> |On(threads[i])| == if threads[i].avail then 0 else 1
  {
    forall t | t in targets.Keys
      ensures t in On(threads[0]) + On(threads[1])
    {
      assert targets[t].thread == 0 || targets[t].thread == 1;
    }
  }

  class Manager {
    var sources: map<nat, Source>
    var targets: map<nat, Target>
    var paths: map<nat, Path>
    var sourceList: seq<nat>
    var targetList: seq<nat>
    var sourceKey: nat
    var targetKey: nat
    var threads: seq<Thread>
    var next: nat                // the next address that the allocator gives out

    ghost function Now(): Tables
      reads this
    {
      Tables(sources, targets, paths)
    }

    ghost predicate Fresh()
      reads this
    {
      && (forall s :: s in sources ==> s < next)
      && (forall t :: t in targets ==> t < next)
      && (forall p :: p in paths ==> p < next)
    }

    ghost predicate Sound()
      reads this
    {
      && Fresh() && Now().Rows() && Now().Keys(sourceKey, targetKey)
    }

    /** A new path, put into both lists. */
    method CreatePath(s: nat, t: nat)
      requires Sound() && s in sources && t in targets && !Now().Joined(s, t)
      modifies `sources, `targets, `paths, `next
      ensures Sound() && SameEnds(old(Now()), Now())
      ensures forall u: nat, v: nat :: Now().Joined(u, v) <==> old(Now()).Joined(u, v) || (u == s && v == t)
      ensures StartsStay(old(targets), targets)
    {
      hide Tables.Rows, Tables.Joined, Tables.Keys, Sorted, Distinct;
      var p := next;
      next := next + 1;
      var e, f := Entry(targets[t].key, targets[t].order, p), Entry(sources[s].key, sources[s].order, p);
      var row := AddInOrder(sources[s].paths, e);
      var column := AddInOrder(targets[t].paths, f);
      PathAdded(Now(), s, t, p, row, column);
      paths := paths[p := Path(s, t)];
      sources := sources[s := sources[s].(paths := row, numPath := |row|)];
      targets := targets[t := targets[t].(paths := column, numPath := |column|)];
      KeysStay(old(Now()), Now(), sourceKey, targetKey);
    }

    /** Takes the path between two ends out of both lists, found by their keys, and away. */
    method DestroyPath(s: nat, t: nat)
      requires Sound() && s in sources && t in targets && Now().Joined(s, t)
      modifies `sources, `targets, `paths
      ensures Sound() && SameEnds(old(Now()), Now())
      ensures forall u: nat, v: nat :: Now().Joined(u, v) <==> old(Now()).Joined(u, v) && !(u == s && v == t)
      ensures targets == old(targets)[t := targets[t]]
      ensures targets[t].start == (old(targets)[t].start && targets[t].numPath != 0)
    {
      hide Tables.Joined, Tables.Rows, Sorted, Distinct, Tables.SourceRow, Tables.TargetRow, Tables.Keys, Without;
      ghost var p := TheEntries(Now(), s, t, sourceKey, targetKey);
      var i := Find(sources[s].paths, targets[t].key);
      assert i < |sources[s].paths|;
      var fromSource := sources[s].paths[i].path;
      var row := Without(sources[s].paths, i);
      var j := Find(targets[t].paths, sources[s].key);
      assert j < |targets[t].paths|;
      var fromTarget := targets[t].paths[j].path;
      var column := Without(targets[t].paths, j);
      var start := targets[t].start && |column| != 0;
      assert fromSource == fromTarget == p;
      WithoutShrinks(sources[s].paths, i);
      WithoutShrinks(targets[t].paths, j);
      PathRemoved(Now(), s, t, p, row, column, start);
      sources := sources[s := sources[s].(paths := row, numPath := |row|)];
      targets := targets[t := targets[t].(paths := column, numPath := |column|, start := start)];
      paths := paths - {fromSource};
      KeysStay(old(Now()), Now(), sourceKey, targetKey);
    }

    // The loops over the other side, when an end comes or goes.

    method JoinTargets(s: nat)
      requires Sound() && s in sources && Distinct(targetList)
      requires forall t :: t in targetList ==> t in targets && !Now().Joined(s, t)
      modifies `sources, `targets, `paths, `next
      ensures Sound() && SameEnds(old(Now()), Now())
      ensures forall u: nat, v: nat :: Now().Joined(u, v) <==> old(Now()).Joined(u, v) || (u == s && v in targetList)
      ensures StartsStay(old(targets), targets)
    {
      hide Tables.Rows, Tables.Keys, Tables.Joined, Distinct;
      var i := 0;
      while i < |targetList|
        invariant 0 <= i <= |targetList|
        invariant Sound() && SameEnds(old(Now()), Now())
        invariant forall u: nat, v: nat ::
                    Now().Joined(u, v) <==> old(Now()).Joined(u, v) || (u == s && v in targetList[..i])
        invariant StartsStay(old(targets), targets)
      {
        NextOfDistinct(targetList, i);
        CreatePath(s, targetList[i]);
        i := i + 1;
      }
      assert targetList[..i] == targetList;
    }

    method JoinSources(t: nat)
      requires Sound() && t in targets && Distinct(sourceList)
      requires forall s :: s in sourceList ==> s in sources && !Now().Joined(s, t)
      modifies `sources, `targets, `paths, `next
      ensures Sound() && SameEnds(old(Now()), Now())
      ensures forall u: nat, v: nat :: Now().Joined(u, v) <==> old(Now()).Joined(u, v) || (v == t && u in sourceList)
      ensures StartsStay(old(targets), targets)
    {
      hide Tables.Rows, Tables.Keys, Tables.Joined, Distinct;
      var i := 0;
      while i < |sourceList|
        invariant 0 <= i <= |sourceList|
        invariant Sound() && SameEnds(old(Now()), Now())
        invariant forall u: nat, v: nat ::
                    Now().Joined(u, v) <==> old(Now()).Joined(u, v) || (v == t && u in sourceList[..i])
        invariant StartsStay(old(targets), targets)
      {
        NextOfDistinct(sourceList, i);
        CreatePath(sourceList[i], t);
        i := i + 1;
      }
      assert sourceList[..i] == sourceList;
    }

    method PartTargets(s: nat)
      requires Sound() && s in sources && Distinct(targetList)
      requires forall t :: t in targetList ==> t in targets && Now().Joined(s, t)
      modifies `sources, `targets, `paths
      ensures Sound() && SameEnds(old(Now()), Now())
      ensures forall u: nat, v: nat :: Now().Joined(u, v) <==> old(Now()).Joined(u, v) && !(u == s && v in targetList)
      ensures forall t :: t in targetList ==> targets[t].start == (old(targets)[t].start && targets[t].numPath != 0)
    {
      hide Tables.Rows, Tables.Keys, Tables.Joined, Distinct, SameEnds, Fresh;
      var i := 0;
      SameEndsAs(Now(), Now());
      while i < |targetList|
        invariant 0 <= i <= |targetList|
        invariant Sound() && SameEnds(old(Now()), Now())
        invariant sources.Keys == old(sources).Keys && targets.Keys == old(targets).Keys
        invariant forall u: nat, v: nat ::
                    Now().Joined(u, v) <==> old(Now()).Joined(u, v) && !(u == s && v in targetList[..i])
        invariant forall t :: t in targetList[..i] ==>
                    targets[t].start == (old(targets)[t].start && targets[t].numPath != 0)
        invariant forall t :: t in targetList[i..] ==> targets[t] == old(targets)[t]
      {
        NextOfDistinct(targetList, i);
        ghost var before := Now();
        SameEndsAs(old(Now()), before);
        DestroyPath(s, targetList[i]);
        SameEndsOn(old(Now()), before, Now());
        i := i + 1;
      }
      assert targetList[..i] == targetList;
    }

    method PartSources(t: nat)
      requires Sound() && t in targets && Distinct(sourceList)
      requires forall s :: s in sourceList ==> s in sources && Now().Joined(s, t)
      modifies `sources, `targets, `paths
      ensures Sound() && SameEnds(old(Now()), Now())
      ensures forall u: nat, v: nat :: Now().Joined(u, v) <==> old(Now()).Joined(u, v) && !(v == t && u in sourceList)
      ensures targets == old(targets)[t := targets[t]]
    {
      hide Tables.Rows, Tables.Keys, Tables.Joined, Distinct;
      var i := 0;
      while i < |sourceList|
        invariant 0 <= i <= |sourceList|
        invariant Sound() && SameEnds(old(Now()), Now())
        invariant forall u: nat, v: nat ::
                    Now().Joined(u, v) <==> old(Now()).Joined(u, v) && !(v == t && u in sourceList[..i])
        invariant targets == old(targets)[t := targets[t]]
      {
        NextOfDistinct(sourceList, i);
        DestroyPath(sourceList[i], t);
        i := i + 1;
      }
      assert sourceList[..i] == sourceList;
    }

    /** What holds whenever the manager's lock is free. */
    ghost predicate Valid()
      reads this
    {
      && Sound() && Listed(Now(), sourceList, targetList) && Full(Now())
      && Owned(targets, threads) && OneHost(targets)
    }

    constructor ()
      ensures Valid() && sources == map[] && targets == map[]
    {
      sources, targets, paths, sourceList, targetList := map[], map[], map[], [], [];
      sourceKey, targetKey, next := 0, 0, 0;
      threads := [Thread(true, None), Thread(true, None)];
    }

    /** A new source, with a path to every target. */
    method AttachSource(order: nat) returns (s: nat)
      requires Valid() && sourceKey < 0xFFFF_FFFF
      modifies this
      ensures Valid()
      ensures s !in old(sources) && sources.Keys == old(sources).Keys + {s} && targets.Keys == old(targets).Keys
      ensures sources[s].key == old(sourceKey) && sources[s].order == order && threads == old(threads)
      ensures sources[s].numPath == |old(targetList)|
      ensures EndsStay(old(Now()), Now())
      ensures sourceList == old(sourceList) + [s] && targetList == old(targetList)
      ensures StartsStay(old(targets), targets) && sourceKey == old(sourceKey) + 1
    {
      hide Tables.Rows, Tables.Keys, Tables.Joined, Distinct, Listed, Full, Owned, OneHost, Without, InOrder, EndsStay;
      ghost var was := Now();
      FreeToJoin(was, sourceList, targetList);
      s := EnterSource(order);
      ghost var before := Now();
      JoinTargets(s);
      ListedSource(was, before, Now(), old(sourceList), targetList, s);
      FullSource(was, before, Now(), old(sourceList), targetList, s);
      OwnedSame(before, Now(), threads);
      RowCount(Now(), s, targetList);
      EndsAdded(was, before, Now());
    }

    /** The part of the above that enters the source. */
    method EnterSource(order: nat) returns (s: nat)
      requires Sound() && sourceKey < 0xFFFF_FFFF
      modifies `sources, `sourceKey, `sourceList, `next
      ensures Sound() && s !in old(sources) && s in sources && sources == old(sources)[s := sources[s]]
      ensures sourceKey == old(sourceKey) + 1
      ensures sources[s] == Source(old(sourceKey), order, [], 0) && sourceList == old(sourceList) + [s]
      ensures forall u: nat, v: nat :: Now().Joined(u, v) <==> old(Now()).Joined(u, v)
    {
      hide Tables.Rows, Tables.Keys, Tables.Joined;
      s := next;
      next := next + 1;
      SourceAdded(Now(), s, sourceKey, targetKey, order);
      sources := sources[s := Source(sourceKey, order, [], 0)];
      sourceKey := NextKey(sourceKey);
      sourceList := sourceList + [s];
    }

    /** A new target, on the first thread to be had and with a path from every source; with no
        thread left, nothing but a key is used up. */
    method AttachTarget(order: nat) returns (handle: Option<nat>)
      requires Valid() && targetKey < 0xFFFF_FFFF
      modifies this
      ensures Valid() && sources.Keys == old(sources).Keys
      ensures handle == None <==> forall i :: 0 <= i < NUM_TARGET_THREAD ==> !old(threads)[i].avail
      ensures handle == None ==> Now() == old(Now()) && threads == old(threads)
      ensures targetKey == old(targetKey) + 1
      ensures handle.Some? ==>
                var t := handle.value;
                && t !in old(targets) && targets.Keys == old(targets).Keys + {t}
                && targets[t].key == old(targetKey) && targets[t].order == order
                && (targets[t].host <==> old(targets) == map[])
                && targets[t].numPath == |sourceList|
                && FirstAvailable(old(threads), targets[t].thread)
                && threads == old(threads)[targets[t].thread := Thread(false, Some(t))]
      ensures EndsStay(old(Now()), Now()) && sourceList == old(sourceList)
      ensures StartsStay(old(targets), targets) && (handle.Some? ==> !targets[handle.value].start)
    {
      hide Tables.Rows, Tables.Keys, Tables.Joined, Distinct, Listed, Full, Owned, OneHost, Without, InOrder, EndsStay;
      KeysMore(Now(), sourceKey, targetKey);
      ThreadsKept(targets, threads);
      var key := targetKey;
      targetKey := NextKey(targetKey);
      var idx := FindThread();
      if idx == NUM_TARGET_THREAD {
        EndsUnmoved(Now());
        return None;
      }
      var t := EnterTarget(order, key, idx);
      handle := Some(t);
    }

    /** The part of the above that has a thread. */
    method EnterTarget(order: nat, key: nat, idx: nat) returns (t: nat)
      requires Fresh() && Now().Rows() && Now().Keys(sourceKey, key) && targetKey == key + 1
      requires Listed(Now(), sourceList, targetList) && Full(Now()) && Owned(targets, threads) && OneHost(targets)
      requires idx < |threads| && threads[idx].avail
      modifies `sources, `targets, `paths, `targetList, `threads, `next
      ensures Valid() && sources.Keys == old(sources).Keys
      ensures t !in old(targets) && targets.Keys == old(targets).Keys + {t}
      ensures targets[t].key == key && targets[t].order == order && (targets[t].host <==> old(targets) == map[])
      ensures targets[t].numPath == |sourceList|
      ensures targets[t].thread == idx && threads == old(threads)[idx := Thread(false, Some(t))]
      ensures EndsStay(old(Now()), Now()) && StartsStay(old(targets), targets) && !targets[t].start
    {
      hide Tables.Rows, Tables.Keys, Tables.Joined, Distinct, Listed, Full, Owned, OneHost, Without, InOrder, EndsStay;
      ghost var was := Now();
      FreeToJoin(was, sourceList, targetList);
      t := AdmitTarget(order, key, idx);
      ghost var before := Now();
      JoinSources(t);
      ListedSame(before, Now(), sourceList, targetList);
      FullTarget(was, before, Now(), sourceList, old(targetList), t);
      OwnedSame(before, Now(), threads);
      ColumnCount(Now(), t, sourceList);
      EndsAdded(was, before, Now());
    }

    /** The part of the above that takes the thread and enters the target in the list. */
    method AdmitTarget(order: nat, key: nat, idx: nat) returns (t: nat)
      requires Fresh() && Now().Rows() && Now().Keys(sourceKey, key) && targetKey == key + 1
      requires Listed(Now(), sourceList, targetList) && Owned(targets, threads) && OneHost(targets)
      requires idx < |threads| && threads[idx].avail
      modifies `targets, `targetList, `threads, `next
      ensures Sound() && Listed(Now(), sourceList, targetList) && Owned(targets, threads) && OneHost(targets)
      ensures t !in old(targets) && t in targets && targets == old(targets)[t := targets[t]]
      ensures targets[t].key == key && targets[t].order == order && (targets[t].host <==> old(targets) == map[])
      ensures targets[t].thread == idx && threads == old(threads)[idx := Thread(false, Some(t))] && !targets[t].start
      ensures forall u: nat, v: nat :: Now().Joined(u, v) <==> old(Now()).Joined(u, v)
    {
      hide Tables.Rows, Tables.Keys, Tables.Joined, Distinct, Listed, Owned, OneHost, Without, InOrder;
      ghost var was := Now();
      t := next;
      next := next + 1;
      OwnedMore(targets, threads, idx, t, Target(key, order, [], 0, idx, |targetList| == 0, false));
      threads := threads[idx := Thread(false, Some(t))];
      ListHas(was, sourceList, targetList);
      var k := PlaceTarget(order);
      var list := Inserted(targetList, t, k);
      TargetAdded(was, t, sourceKey, key, order, idx, |list| == 1);
      targets := targets[t := Target(key, order, [], 0, idx, |list| == 1, false)];
      ListedTarget(was, Now(), Now(), sourceList, targetList, t, k);
      HostOnlyFirst(was, targets, sourceList, targetList, t);
      targetList := list;
    }

    /** The first thread to be had. */
    method FindThread() returns (idx: nat)
      requires |threads| == NUM_TARGET_THREAD
      ensures idx <= NUM_TARGET_THREAD
      ensures idx < NUM_TARGET_THREAD ==> FirstAvailable(threads, idx)
      ensures idx == NUM_TARGET_THREAD ==> forall i :: 0 <= i < NUM_TARGET_THREAD ==> !threads[i].avail
    {
      idx := 0;
      while idx < NUM_TARGET_THREAD && !threads[idx].avail
        invariant idx <= NUM_TARGET_THREAD
        invariant forall i :: 0 <= i < idx ==> !threads[i].avail
      {
        idx := idx + 1;
      }
    }

    /** Where a target of an order goes in the list of targets. */
    method PlaceTarget(order: nat) returns (k: nat)
      requires forall t :: t in targetList ==> t in targets
      ensures k <= |targetList|
      ensures forall i :: 0 <= i < k ==> targets[targetList[i]].order >= order
      ensures k < |targetList| ==> targets[targetList[k]].order < order
    {
      k := 0;
      while k < |targetList| && order <= targets[targetList[k]].order
        invariant k <= |targetList|
        invariant forall i :: 0 <= i < k ==> targets[targetList[i]].order >= order
      {
        k := k + 1;
      }
    }

    /** A source goes, and its paths with it. */
    method DetachSource(s: nat)
      requires Valid() && s in sources
      modifies this
      ensures Valid() && sources.Keys == old(sources).Keys - {s} && targets.Keys == old(targets).Keys
      ensures threads == old(threads) && targetList == old(targetList)
      ensures EndsStay(old(Now()), Now()) && sourceKey == old(sourceKey) && targetKey == old(targetKey)
      ensures StartsFall(old(targets), targets)
    {
      hide Tables.Rows, Tables.Keys, Tables.Joined, Distinct, Listed, Full, Owned, OneHost, Without, InOrder, EndsStay;
      ghost var was := Now();
      BoundToPart(was, sourceList, targetList);
      PartTargets(s);
      ghost var before := Now();
      var k := IndexOf(sourceList, s);
      sourceList := Without(sourceList, k);
      NoPathFromSource(was, before, sourceList, targetList, s);
      SourceRemoved(before, s, sourceKey, targetKey);
      sources := sources - {s};
      ListedNoSource(was, before, Now(), old(sourceList), targetList, k);
      FullNoSource(was, before, Now(), old(sourceList), targetList, s);
      OwnedSame(was, before, threads);
      EndsRemoved(was, before, Now());
    }

    /** A target goes, and its paths with it; its thread is to be had again. */
    method DetachTarget(t: nat)
      requires Valid() && t in targets
      modifies this
      ensures Valid() && targets.Keys == old(targets).Keys - {t} && sources.Keys == old(sources).Keys
      ensures threads == old(threads)[old(targets)[t].thread := Thread(true, None)] && sourceList == old(sourceList)
      ensures EndsStay(old(Now()), Now()) && sourceKey == old(sourceKey) && targetKey == old(targetKey)
      ensures StartsStay(old(targets), targets)
    {
      hide Tables.Rows, Tables.Keys, Tables.Joined, Distinct, Listed, Full, Owned, OneHost, Without, InOrder, EndsStay;
      ghost var was := Now();
      OwnedLess(targets, threads, t);
      var thread := targets[t].thread;
      threads := threads[thread := threads[thread].(target := None)];
      RemoveTarget(t);
      threads := threads[thread := threads[thread].(avail := true)];
      assert threads == old(threads)[thread := Thread(true, None)];
      OwnedStays(was, Now(), t, threads);
    }

    /** The part of the above that takes the target's paths away and the target out of the list. */
    method RemoveTarget(t: nat)
      requires Sound() && Listed(Now(), sourceList, targetList) && Full(Now()) && t in targets
      modifies `sources, `targets, `paths, `targetList
      ensures Sound() && Listed(Now(), sourceList, targetList) && Full(Now())
      ensures targets.Keys == old(targets).Keys - {t} && sources.Keys == old(sources).Keys
      ensures EndsStay(old(Now()), Now()) && StartsStay(old(targets), targets)
    {
      hide Tables.Rows, Tables.Keys, Tables.Joined, Distinct, Listed, Full, Without, InOrder, EndsStay;
      ghost var was := Now();
      BoundToPart(was, sourceList, targetList);
      PartSources(t);
      ghost var before := Now();
      var k := IndexOf(targetList, t);
      targetList := Without(targetList, k);
      NoPathToTarget(was, before, sourceList, old(targetList), t);
      TargetRemoved(before, t, sourceKey, targetKey);
      targets := targets - {t};
      ListedNoTarget(was, before, Now(), sourceList, old(targetList), k);
      FullNoTarget(was, before, Now(), sourceList, old(targetList), t);
      EndsRemoved(was, before, Now());
    }
  }

  /** The place of an element in a list. */
  method IndexOf(list: seq<nat>, x: nat) returns (k: nat)
    requires x in list
    ensures k < |list| && list[k] == x
  {
    k := 0;
    while list[k] != x
      invariant k < |list| && x in list[k..]
      decreases |list| - k
    {
      k := k + 1;
    }
  }

  lemma DistinctInserted(list: seq<nat>, x: nat, k: nat)
    requires k <= |list| && Distinct(list) && x !in list
    ensures Distinct(Inserted(list, x, k))
  {
  }

  // ---------------------------------------------------------------- how an end coming or going changes that

  /** What the loops over the other side need. */
  lemma FreeToJoin(tb: Tables, sl: seq<nat>, tl: seq<nat>)
    requires Listed(tb, sl, tl) && Full(tb)
    ensures Distinct(sl) && Distinct(tl)
    ensures forall t :: t in tl ==> t in tb.targets && forall s: nat :: s !in tb.sources ==> !tb.Joined(s, t)
    ensures forall s :: s in sl ==> s in tb.sources && forall t: nat :: t !in tb.targets ==> !tb.Joined(s, t)
  {
  }

  lemma BoundToPart(tb: Tables, sl: seq<nat>, tl: seq<nat>)
    requires Listed(tb, sl, tl) && Full(tb)
    ensures Distinct(sl) && Distinct(tl)
    ensures forall s :: s in sl <==> s in tb.sources
    ensures forall t :: t in tl <==> t in tb.targets
    ensures forall s, t :: s in tb.sources && t in tb.targets ==> tb.Joined(s, t)
  {
  }

  lemma ListedSource(was: Tables, mid: Tables, now: Tables, sl: seq<nat>, tl: seq<nat>, s: nat)
    requires Listed(was, sl, tl) && s !in was.sources && SameEnds(mid, now)
    requires mid.sources.Keys == was.sources.Keys + {s} && mid.targets == was.targets
    ensures Listed(now, sl + [s], tl) && Distinct(tl)
  {
    DistinctMore(sl, s);
    assert forall x :: x in sl + [s] <==> x in sl || x == s;
  }

  lemma FullSource(was: Tables, mid: Tables, now: Tables, sl: seq<nat>, tl: seq<nat>, s: nat)
    requires Listed(was, sl, tl) && Full(was) && s !in was.sources && SameEnds(mid, now)
    requires mid.sources.Keys == was.sources.Keys + {s} && mid.targets == was.targets
    requires forall u: nat, v: nat :: now.Joined(u, v) <==> was.Joined(u, v) || (u == s && v in tl)
    ensures Full(now) && forall v: nat :: now.Joined(s, v) <==> v in tl
  {
    hide Tables.Joined, Distinct;
  }

  lemma InOrderInserted(was: map<nat, Target>, now: map<nat, Target>, list: seq<nat>, t: nat, k: nat)
    requires k <= |list| && (forall x :: x in list ==> x in was && x in now && now[x].order == was[x].order) && t in now
    requires InOrder(was, list)
    requires forall i :: 0 <= i < k ==> was[list[i]].order >= now[t].order
    requires k < |list| ==> was[list[k]].order < now[t].order
    ensures forall x :: x in Inserted(list, t, k) ==> x in now
    ensures InOrder(now, Inserted(list, t, k))
  {
    hide Inserted;
    InsertedAt(list, t, k);
    var r := Inserted(list, t, k);
    forall i, j | 0 <= i < j < |r|
      ensures now[r[i]].order >= now[r[j]].order
    {
      InsertedPlace(list, t, k, i);
      InsertedPlace(list, t, k, j);
      if j > k {
        assert was[list[k]].order >= was[list[j - 1]].order;
      }
    }
  }

  lemma InsertedPlace<T>(list: seq<T>, e: T, k: nat, i: nat)
    requires k <= |list| && i < |Inserted(list, e, k)|
    ensures |Inserted(list, e, k)| == |list| + 1
    ensures Inserted(list, e, k)[i] == if i < k then list[i] else if i == k then e else list[i - 1]
  {
  }

  lemma InOrderWithout(was: map<nat, Target>, now: map<nat, Target>, list: seq<nat>, k: nat)
    requires k < |list| && (forall x :: x in list ==> x in was) && InOrder(was, list)
    requires forall x :: x in Without(list, k) ==> x in now && x in was && now[x].order == was[x].order
    ensures InOrder(now, Without(list, k))
  {
    hide Without;
    var r := Without(list, k);
    forall i, j | 0 <= i < j < |r|
      ensures now[r[i]].order >= now[r[j]].order
    {
      WithoutAt(list, k, i);
      WithoutAt(list, k, j);
      assert r[i] in r && r[j] in r;
    }
  }

  lemma ListHas(tb: Tables, sl: seq<nat>, tl: seq<nat>)
    requires Listed(tb, sl, tl)
    ensures forall t :: t in tl ==> t in tb.targets
  {
  }

  lemma ListedSame(a: Tables, b: Tables, sl: seq<nat>, tl: seq<nat>)
    requires Listed(a, sl, tl) && SameEnds(a, b)
    ensures Listed(b, sl, tl) && Distinct(sl)
  {
    hide Distinct;
  }

  lemma ListedTarget(was: Tables, mid: Tables, now: Tables, sl: seq<nat>, tl: seq<nat>, t: nat, k: nat)
    requires Listed(was, sl, tl) && t !in was.targets && SameEnds(mid, now) && k <= |tl|
    requires mid.sources == was.sources && t in mid.targets && mid.targets == was.targets[t := mid.targets[t]]
    requires forall i :: 0 <= i < k ==> was.targets[tl[i]].order >= mid.targets[t].order
    requires k < |tl| ==> was.targets[tl[k]].order < mid.targets[t].order
    ensures Listed(now, sl, Inserted(tl, t, k)) && Distinct(sl)
  {
    hide Distinct, InOrder, Inserted;
    InsertedAt(tl, t, k);
    DistinctInserted(tl, t, k);
    InOrderInserted(was.targets, now.targets, tl, t, k);
  }

  lemma FullTarget(was: Tables, mid: Tables, now: Tables, sl: seq<nat>, tl: seq<nat>, t: nat)
    requires Listed(was, sl, tl) && Full(was) && t !in was.targets && SameEnds(mid, now)
    requires mid.targets.Keys == was.targets.Keys + {t} && mid.sources == was.sources
    requires forall u: nat, v: nat :: now.Joined(u, v) <==> was.Joined(u, v) || (v == t && u in sl)
    ensures Full(now) && forall u: nat :: now.Joined(u, t) <==> u in sl
  {
    hide Tables.Joined, Distinct;
  }

  /** A target is made host only when it is the first. */
  lemma HostOnlyFirst(was: Tables, targets: map<nat, Target>, sl: seq<nat>, tl: seq<nat>, t: nat)
    requires Listed(was, sl, tl) && OneHost(was.targets) && t !in was.targets
    requires t in targets && targets == was.targets[t := targets[t]] && targets[t].host == (|tl| == 0)
    ensures OneHost(targets) && (targets[t].host <==> was.targets == map[])
  {
    if |tl| > 0 {
      assert tl[0] in was.targets;
    }
  }

  lemma ThreadsKept(targets: map<nat, Target>, threads: seq<Thread>)
    requires Owned(targets, threads)
    ensures |threads| == NUM_TARGET_THREAD
  {
  }

  lemma OwnedMore(targets: map<nat, Target>, threads: seq<Thread>, idx: nat, t: nat, target: Target)
    requires Owned(targets, threads) && idx < |threads| && threads[idx].avail && t !in targets && target.thread == idx
    ensures Owned(targets[t := target], threads[idx := Thread(false, Some(t))])
  {
  }

  lemma OwnedLess(targets: map<nat, Target>, threads: seq<Thread>, t: nat)
    requires Owned(targets, threads) && OneHost(targets) && t in targets
    ensures targets[t].thread < |threads|
    ensures Owned(targets - {t}, threads[targets[t].thread := Thread(true, None)]) && OneHost(targets - {t})
  {
  }

  lemma OwnedSame(a: Tables, b: Tables, threads: seq<Thread>)
    requires Owned(a.targets, threads) && OneHost(a.targets)
    requires b.targets.Keys == a.targets.Keys && forall t :: t in a.targets ==> SameTarget(a.targets[t], b.targets[t])
    ensures Owned(b.targets, threads) && OneHost(b.targets)
  {
  }

  lemma OwnedStays(was: Tables, now: Tables, t: nat, threads: seq<Thread>)
    requires Owned(was.targets - {t}, threads) && OneHost(was.targets - {t})
    requires now.targets.Keys == was.targets.Keys - {t} && EndsStay(was, now)
    ensures Owned(now.targets, threads) && OneHost(now.targets)
  {
    hide Owned, OneHost;
    OwnedSame(Tables(was.sources, was.targets - {t}, was.paths), now, threads);
  }

  lemma NoPathFromSource(was: Tables, mid: Tables, sl: seq<nat>, tl: seq<nat>, s: nat)
    requires Full(was) && forall t :: t in tl <==> t in was.targets
    requires forall u: nat, v: nat :: mid.Joined(u, v) <==> was.Joined(u, v) && !(u == s && v in tl)
    ensures forall v: nat :: !mid.Joined(s, v)
  {
    hide Tables.Joined;
  }

  lemma NoPathToTarget(was: Tables, mid: Tables, sl: seq<nat>, tl: seq<nat>, t: nat)
    requires Full(was) && forall s :: s in sl <==> s in was.sources
    requires forall u: nat, v: nat :: mid.Joined(u, v) <==> was.Joined(u, v) && !(v == t && u in sl)
    ensures forall u: nat :: !mid.Joined(u, t)
  {
    hide Tables.Joined;
  }

  lemma ListedNoSource(was: Tables, mid: Tables, now: Tables, sl: seq<nat>, tl: seq<nat>, k: nat)
    requires Listed(was, sl, tl) && SameEnds(was, mid) && k < |sl|
    requires now.sources == mid.sources - {sl[k]} && now.targets == mid.targets
    ensures Listed(now, Without(sl, k), tl)
  {
    WithoutHas(sl, k);
  }

  lemma FullNoSource(was: Tables, mid: Tables, now: Tables, sl: seq<nat>, tl: seq<nat>, s: nat)
    requires Listed(was, sl, tl) && Full(was) && SameEnds(was, mid)
    requires now.sources == mid.sources - {s} && now.targets == mid.targets
    requires forall u: nat, v: nat :: mid.Joined(u, v) <==> was.Joined(u, v) && !(u == s && v in tl)
    requires forall u: nat, v: nat :: now.Joined(u, v) <==> mid.Joined(u, v)
    ensures Full(now)
  {
    hide Tables.Joined, Distinct;
  }

  lemma ListedNoTarget(was: Tables, mid: Tables, now: Tables, sl: seq<nat>, tl: seq<nat>, k: nat)
    requires Listed(was, sl, tl) && SameEnds(was, mid) && k < |tl|
    requires now.targets == mid.targets - {tl[k]} && now.sources == mid.sources
    ensures Listed(now, sl, Without(tl, k))
  {
    hide Distinct, Without, InOrder;
    WithoutHas(tl, k);
    InOrderWithout(was.targets, now.targets, tl, k);
  }

  lemma WithoutAt<T>(list: seq<T>, k: nat, i: nat)
    requires k < |list| && i < |Without(list, k)|
    ensures |Without(list, k)| == |list| - 1 && Without(list, k)[i] == list[if i < k then i else i + 1]
  {
  }

  lemma FullNoTarget(was: Tables, mid: Tables, now: Tables, sl: seq<nat>, tl: seq<nat>, t: nat)
    requires Listed(was, sl, tl) && Full(was) && SameEnds(was, mid)
    requires now.targets == mid.targets - {t} && now.sources == mid.sources
    requires forall u: nat, v: nat :: mid.Joined(u, v) <==> was.Joined(u, v) && !(v == t && u in sl)
    requires forall u: nat, v: nat :: now.Joined(u, v) <==> mid.Joined(u, v)
    ensures Full(now)
  {
    hide Tables.Joined, Distinct;
  }

  lemma KeysMore(tb: Tables, sourceKey: nat, targetKey: nat)
    requires tb.Keys(sourceKey, targetKey)
    ensures tb.Keys(sourceKey, targetKey + 1)
  {
  }

  /** A target without paths disturbs nothing. */
  lemma TargetAdded(tb: Tables, t: nat, sourceKey: nat, targetKey: nat, order: nat, thread: nat, host: bool)
    requires tb.Rows() && tb.Keys(sourceKey, targetKey) && t !in tb.targets
    ensures var now := tb.(targets := tb.targets[t := Target(targetKey, order, [], 0, thread, host, false)]);
      now.Rows() && now.Keys(sourceKey, targetKey + 1)
      && (forall u: nat, v: nat :: now.Joined(u, v) <==> tb.Joined(u, v))
  {
    hide Tables.SourceRow, Tables.TargetRow;
    var now := tb.(targets := tb.targets[t := Target(targetKey, order, [], 0, thread, host, false)]);
    forall u | u in now.targets
      ensures now.TargetRow(u)
    {
      if u == t { EmptyTargetRow(now, t); } else { TargetRowStays(tb, now, u); }
    }
    forall s | s in now.sources
      ensures now.SourceRow(s)
    {
      SourceRowStays(tb, now, s);
    }
  }

  /** Nor does taking an end without paths away. */
  lemma SourceRemoved(tb: Tables, s: nat, sourceKey: nat, targetKey: nat)
    requires tb.Rows() && tb.Keys(sourceKey, targetKey) && forall v: nat :: !tb.Joined(s, v)
    ensures var now := tb.(sources := tb.sources - {s});
      now.Rows() && now.Keys(sourceKey, targetKey)
      && (forall u: nat, v: nat :: now.Joined(u, v) <==> tb.Joined(u, v))
  {
    hide Tables.SourceRow, Tables.TargetRow;
    var now := tb.(sources := tb.sources - {s});
    forall p | p in tb.paths
      ensures tb.paths[p].source != s
    {
      assert tb.Joined(tb.paths[p].source, tb.paths[p].target);
    }
    forall u | u in now.sources
      ensures now.SourceRow(u)
    {
      SourceRowStays(tb, now, u);
    }
    forall t | t in now.targets
      ensures now.TargetRow(t)
    {
      TargetRowStays(tb, now, t);
    }
  }

  lemma TargetRemoved(tb: Tables, t: nat, sourceKey: nat, targetKey: nat)
    requires tb.Rows() && tb.Keys(sourceKey, targetKey) && forall u: nat :: !tb.Joined(u, t)
    ensures var now := tb.(targets := tb.targets - {t});
      now.Rows() && now.Keys(sourceKey, targetKey)
      && (forall u: nat, v: nat :: now.Joined(u, v) <==> tb.Joined(u, v))
  {
    hide Tables.SourceRow, Tables.TargetRow;
    var now := tb.(targets := tb.targets - {t});
    forall p | p in tb.paths
      ensures tb.paths[p].target != t
    {
      assert tb.Joined(tb.paths[p].source, tb.paths[p].target);
    }
    forall u | u in now.sources
      ensures now.SourceRow(u)
    {
      SourceRowStays(tb, now, u);
    }
    forall v | v in now.targets
      ensures now.TargetRow(v)
    {
      TargetRowStays(tb, now, v);
    }
  }

  lemma KeysStay(a: Tables, b: Tables, sourceKey: nat, targetKey: nat)
    requires a.Keys(sourceKey, targetKey) && SameEnds(a, b)
    ensures b.Keys(sourceKey, targetKey)
  {
  }

  /** Going through a list of different elements meets a new one each time. */
  lemma NextOfDistinct(list: seq<nat>, i: nat)
    requires i < |list| && Distinct(list)
    ensures list[i] !in list[..i]
    ensures forall x :: x in list[..i + 1] <==> x in list[..i] || x == list[i]
    ensures list[i] in list[i..]
    ensures forall x :: x in list[i + 1..] ==> x in list[i..] && x != list[i]
  {
    assert list[..i + 1] == list[..i] + [list[i]];
  }

  lemma DistinctMore(list: seq<nat>, x: nat)
    requires Distinct(list) && x !in list
    ensures Distinct(list + [x])
  {
  }

  lemma HasFirst(list: seq<nat>)
    ensures list != [] ==> exists x :: x in list
  {
    if list != [] {
      assert list[0] in list;
    }
  }

  /** A list of entries, each of another end and one for every end listed, is as long. */
  lemma {:induction false} AsMany(row: seq<Entry>, ends: map<nat, nat>, list: seq<nat>)
    requires Distinct(row) && Distinct(list)
    requires forall e :: e in row ==> e.path in ends && ends[e.path] in list
    requires forall e, f :: e in row && f in row && ends[e.path] == ends[f.path] ==> e == f
    requires forall t :: t in list ==> exists e :: e in row && ends[e.path] == t
    ensures |row| == |list|
    decreases |row|
  {
    hide Distinct;
    if row == [] {
      HasFirst(list);
    } else {
      var e := row[0];
      var k :| 0 <= k < |list| && list[k] == ends[e.path];
      WithoutHas(row, 0);
      WithoutHas(list, k);
      forall t | t in Without(list, k)
        ensures exists f :: f in Without(row, 0) && ends[f.path] == t
      {
        var f :| f in row && ends[f.path] == t;
        assert f in Without(row, 0);
      }
      AsMany(Without(row, 0), ends, Without(list, k));
    }
  }

  /** A source joined to exactly the listed targets has as many paths. */
  lemma RowCount(tb: Tables, s: nat, list: seq<nat>)
    requires tb.Rows() && s in tb.sources && Distinct(list)
    requires forall t: nat :: tb.Joined(s, t) <==> t in list
    ensures tb.sources[s].numPath == |list|
  {
    hide Sorted, Distinct;
    var row := tb.sources[s].paths;
    assert tb.SourceRow(s);
    var ends := map p | p in tb.paths :: tb.paths[p].target;
    forall e | e in row
      ensures e.path in ends && ends[e.path] in list
    {
      assert tb.paths[e.path] == Path(s, ends[e.path]);
      assert tb.Joined(s, ends[e.path]);
    }
    forall e, f | e in row && f in row && ends[e.path] == ends[f.path]
      ensures e == f
    {
      assert tb.paths[e.path] == tb.paths[f.path];
    }
    forall t | t in list
      ensures exists e :: e in row && ends[e.path] == t
    {
      var p :| p in tb.paths && tb.paths[p] == Path(s, t);
      assert tb.SourceEntry(p) in row;
    }
    AsMany(row, ends, list);
  }

  /** And so for a target. */
  lemma ColumnCount(tb: Tables, t: nat, list: seq<nat>)
    requires tb.Rows() && t in tb.targets && Distinct(list)
    requires forall s: nat :: tb.Joined(s, t) <==> s in list
    ensures tb.targets[t].numPath == |list|
  {
    hide Sorted, Distinct;
    var column := tb.targets[t].paths;
    assert tb.TargetRow(t);
    var ends := map p | p in tb.paths :: tb.paths[p].source;
    forall e | e in column
      ensures e.path in ends && ends[e.path] in list
    {
      assert tb.paths[e.path] == Path(ends[e.path], t);
      assert tb.Joined(ends[e.path], t);
    }
    forall e, f | e in column && f in column && ends[e.path] == ends[f.path]
      ensures e == f
    {
      assert tb.paths[e.path] == tb.paths[f.path];
    }
    forall s | s in list
      ensures exists e :: e in column && ends[e.path] == s
    {
      var p :| p in tb.paths && tb.paths[p] == Path(s, t);
      assert tb.TargetEntry(p) in column;
    }
    AsMany(column, ends, list);
  }

  /** A list stays right while its paths and their other ends do. */
  lemma SourceRowStays(tb: Tables, now: Tables, u: nat)
    requires u in tb.sources && u in now.sources && now.sources[u] == tb.sources[u] && now.paths == tb.paths
    requires forall p :: p in tb.paths ==>
               && tb.paths[p].target in tb.targets && tb.paths[p].target in now.targets
               && now.targets[tb.paths[p].target] == tb.targets[tb.paths[p].target]
    requires tb.SourceRow(u)
    ensures now.SourceRow(u)
  {
    hide Sorted, Distinct;
  }

  lemma TargetRowStays(tb: Tables, now: Tables, u: nat)
    requires u in tb.targets && u in now.targets && now.targets[u] == tb.targets[u] && now.paths == tb.paths
    requires forall p :: p in tb.paths ==>
               && tb.paths[p].source in tb.sources && tb.paths[p].source in now.sources
               && now.sources[tb.paths[p].source] == tb.sources[tb.paths[p].source]
    requires tb.TargetRow(u)
    ensures now.TargetRow(u)
  {
    hide Sorted, Distinct;
  }

  /** An end that no path leads to has an empty list. */
  lemma EmptySourceRow(tb: Tables, s: nat)
    requires s in tb.sources && tb.sources[s].paths == [] && tb.sources[s].numPath == 0
    requires forall p :: p in tb.paths ==> tb.paths[p].source != s
    ensures tb.SourceRow(s)
  {
  }

  lemma EmptyTargetRow(tb: Tables, t: nat)
    requires t in tb.targets && tb.targets[t].paths == [] && tb.targets[t].numPath == 0
    requires forall p :: p in tb.paths ==> tb.paths[p].target != t
    ensures tb.TargetRow(t)
  {
  }

  /** A source without paths disturbs nothing. */
  lemma SourceAdded(tb: Tables, s: nat, sourceKey: nat, targetKey: nat, order: nat)
    requires tb.Rows() && tb.Keys(sourceKey, targetKey) && s !in tb.sources
    ensures var now := tb.(sources := tb.sources[s := Source(sourceKey, order, [], 0)]);
      now.Rows() && now.Keys(sourceKey + 1, targetKey)
      && (forall u: nat, v: nat :: now.Joined(u, v) <==> tb.Joined(u, v))
  {
    hide Tables.SourceRow, Tables.TargetRow;
    var now := tb.(sources := tb.sources[s := Source(sourceKey, order, [], 0)]);
    forall u | u in now.sources
      ensures now.SourceRow(u)
    {
      if u == s { EmptySourceRow(now, s); } else { SourceRowStays(tb, now, u); }
    }
    forall t | t in now.targets
      ensures now.TargetRow(t)
    {
      TargetRowStays(tb, now, t);
    }
  }

  lemma WithoutShrinks(list: seq<Entry>, k: nat)
    requires k < |list| && Distinct(list)
    ensures Shrunk(list, list[k], Without(list, k))
  {
    WithoutHas(list, k);
    if Sorted(list) {
      WithoutSorted(list, k);
    }
  }

  /** The key of one end finds the one path in the list of the other. */
  lemma TheEntries(tb: Tables, s: nat, t: nat, sourceKey: nat, targetKey: nat) returns (p: nat)
    requires tb.Rows() && tb.Keys(sourceKey, targetKey) && s in tb.sources && t in tb.targets && tb.Joined(s, t)
    ensures p in tb.paths && tb.paths[p] == Path(s, t)
    ensures Distinct(tb.sources[s].paths) && Distinct(tb.targets[t].paths)
    ensures tb.SourceEntry(p) in tb.sources[s].paths && tb.TargetEntry(p) in tb.targets[t].paths
    ensures forall e :: e in tb.sources[s].paths && e.key == tb.targets[t].key ==> e == tb.SourceEntry(p)
    ensures forall e :: e in tb.targets[t].paths && e.key == tb.sources[s].key ==> e == tb.TargetEntry(p)
  {
    p :| p in tb.paths && tb.paths[p] == Path(s, t);
    assert tb.SourceRow(s) && tb.TargetRow(t);
  }
}
