/** The registry of watched file descriptors kept on the circular list, with the sets and the maximum
    handed to `select`. */
module Events {
  import opened KernelList

  datatype Kind = Read | Write | Exception

  /** What is watched: a descriptor, for what, and which callback is to be called. */
  datatype Watch = Watch(fd: nat, kind: Kind, callback: nat)

  /** The three sets handed to `select`. */
  datatype Sets = Sets(rfds: set<nat>, wfds: set<nat>, efds: set<nat>)

  function Of(fds: Sets, kind: Kind): set<nat> {
    match kind
    case Read => fds.rfds
    case Write => fds.wfds
    case Exception => fds.efds
  }

  function With(fds: Sets, kind: Kind, s: set<nat>): Sets {
    match kind
    case Read => fds.(rfds := s)
    case Write => fds.(wfds := s)
    case Exception => fds.(efds := s)
  }

  /** The watches in order, the maximum and the sets. */
  datatype Registry = Registry(watches: seq<Watch>, maxfd: nat, fds: Sets)

  function Max(a: nat, b: nat): nat {
    if a < b then b else a
  }

  function NoWatches(): Registry {
    Registry([], 0, Sets({}, {}, {}))
  }

  function Monitored(r: Registry, w: Watch): Registry
  {
    Registry(r.watches + [w], Max(r.maxfd, w.fd), With(r.fds, w.kind, Of(r.fds, w.kind) + {w.fd}))
  }

  /** The place of the last watch of `fd`, or -1. */
  function LastOf(ws: seq<Watch>, fd: nat): (j: int)
    ensures -1 <= j < |ws| && (j >= 0 ==> ws[j].fd == fd) && forall i :: j < i < |ws| ==> ws[i].fd != fd
    decreases |ws|
  {
    if ws == [] then -1
    else if ws[|ws| - 1].fd == fd then |ws| - 1
    else LastOf(ws[..|ws| - 1], fd)
  }

  /** The maximum of 0 and the descriptors other than `fd`. */
  function MaxOther(ws: seq<Watch>, fd: nat): (m: nat)
    decreases |ws|
  {
    if ws == [] then 0
    else
      var w := ws[|ws| - 1];
      var m := MaxOther(ws[..|ws| - 1], fd);
      if w.fd == fd then m else Max(m, w.fd)
  }

  /** The last watch of `fd` goes, its set loses the descriptor, and the maximum is that of the others. */
  function Unmonitored(r: Registry, fd: nat): Registry
  {
    var j := LastOf(r.watches, fd);
    if j < 0 then r
    else
      var kind := r.watches[j].kind;
      Registry(r.watches[..j] + r.watches[j + 1..], MaxOther(r.watches, fd), With(r.fds, kind, Of(r.fds, kind) - {fd}))
  }

  // ----- what the sets and the maximum are meant to be -----

  ghost predicate Watched(ws: seq<Watch>, fd: nat, kind: Kind) {
    exists i :: 0 <= i < |ws| && ws[i].fd == fd && ws[i].kind == kind
  }

  /** Each set has the descriptors watched for its kind, and no others. */
  ghost predicate SetsExact(r: Registry)
  {
    && (forall fd :: fd in r.fds.rfds <==> Watched(r.watches, fd, Read))
    && (forall fd :: fd in r.fds.wfds <==> Watched(r.watches, fd, Write))
    && (forall fd :: fd in r.fds.efds <==> Watched(r.watches, fd, Exception))
  }

  /** `m` is the maximum of 0 and the descriptors watched. */
  ghost predicate IsMax(ws: seq<Watch>, m: nat) {
    (forall i :: 0 <= i < |ws| ==> ws[i].fd <= m) && (m == 0 || exists i :: 0 <= i < |ws| && ws[i].fd == m)
  }

  ghost predicate Exact(r: Registry) {
    SetsExact(r) && IsMax(r.watches, r.maxfd)
  }

  lemma NoWatchesExact()
    ensures Exact(NoWatches())
  {
  }

  lemma MonitoredWatches(ws: seq<Watch>, w: Watch, fd: nat, kind: Kind)
    ensures Watched(ws + [w], fd, kind) <==> Watched(ws, fd, kind) || (fd == w.fd && kind == w.kind)
  {
    if Watched(ws, fd, kind) {
      var i :| 0 <= i < |ws| && ws[i].fd == fd && ws[i].kind == kind;
      assert (ws + [w])[i] == ws[i];
    }
    assert (ws + [w])[|ws|] == w;
  }

  lemma MonitorKeeps(r: Registry, w: Watch)
    requires Exact(r)
    ensures Exact(Monitored(r, w))
  {
    var r' := Monitored(r, w);
    forall kind: Kind, fd: nat ensures Watched(r'.watches, fd, kind)
        <==> Watched(r.watches, fd, kind) || (fd == w.fd && kind == w.kind) {
      MonitoredWatches(r.watches, w, fd, kind);
    }
    assert r'.watches[|r.watches|] == w;
    if r'.maxfd != 0 && r'.maxfd != w.fd {
      var i :| 0 <= i < |r.watches| && r.watches[i].fd == r.maxfd;
      assert r'.watches[i] == r.watches[i];
    }
  }

  lemma {:induction false} OthersMax(ws: seq<Watch>, fd: nat)
    ensures forall i :: 0 <= i < |ws| && ws[i].fd != fd ==> ws[i].fd <= MaxOther(ws, fd)
    ensures MaxOther(ws, fd) == 0 || exists i :: 0 <= i < |ws| && ws[i].fd != fd && ws[i].fd == MaxOther(ws, fd)
    decreases |ws|
  {
    if ws != [] {
      var n := |ws| - 1;
      OthersMax(ws[..n], fd);
      var m := MaxOther(ws[..n], fd);
      if m != 0 {
        var i :| 0 <= i < n && ws[..n][i].fd != fd && ws[..n][i].fd == m;
        assert ws[i].fd == m;
      }
      assert forall i :: 0 <= i < n ==> ws[..n][i] == ws[i];
    }
  }

  /** What is left when the watch at `j` goes. */
  function Without(ws: seq<Watch>, j: nat): seq<Watch>
    requires j < |ws|
  {
    ws[..j] + ws[j + 1..]
  }

  lemma WithoutAt(ws: seq<Watch>, j: nat, i: nat)
    requires j < |ws| && i < |ws| && i != j
    ensures var k := if i < j then i else i - 1; k < |Without(ws, j)| && Without(ws, j)[k] == ws[i]
  {
  }

  lemma WithoutFrom(ws: seq<Watch>, j: nat, k: nat)
    requires j < |ws| && k < |ws| - 1
    ensures Without(ws, j)[k] == ws[if k < j then k else k + 1]
  {
  }

  /** Another watch of `fd` than the one at `j`. */
  ghost predicate Again(ws: seq<Watch>, j: nat, fd: nat) {
    exists i :: 0 <= i < |ws| && i != j && ws[i].fd == fd
  }

  /** And one for the same kind. */
  ghost predicate SameAgain(ws: seq<Watch>, j: nat)
    requires j < |ws|
  {
    exists i :: 0 <= i < |ws| && i != j && ws[i].fd == ws[j].fd && ws[i].kind == ws[j].kind
  }

  lemma WithoutWatches(ws: seq<Watch>, j: nat, fd: nat, kind: Kind)
    requires j < |ws|
    ensures Watched(Without(ws, j), fd, kind) <==>
      (if fd == ws[j].fd && kind == ws[j].kind then SameAgain(ws, j) else Watched(ws, fd, kind))
  {
    if Watched(Without(ws, j), fd, kind) {
      var k :| 0 <= k < |ws| - 1 && Without(ws, j)[k].fd == fd && Without(ws, j)[k].kind == kind;
      WithoutFrom(ws, j, k);
    }
    forall i | 0 <= i < |ws| && i != j && ws[i].fd == fd && ws[i].kind == kind
      ensures Watched(Without(ws, j), fd, kind)
    {
      WithoutAt(ws, j, i);
    }
  }

  lemma UnmonitorSetsIff(r: Registry, fd: nat)
    requires Exact(r) && LastOf(r.watches, fd) >= 0
    ensures SetsExact(Unmonitored(r, fd)) <==> !SameAgain(r.watches, LastOf(r.watches, fd))
  {
    var r', j := Unmonitored(r, fd), LastOf(r.watches, fd);
    WithoutWatches(r.watches, j, fd, r.watches[j].kind);
    if !SameAgain(r.watches, j) {
      forall kind: Kind, f: nat ensures Watched(r'.watches, f, kind)
          <==> Watched(r.watches, f, kind) && (f != fd || kind != r.watches[j].kind) {
        WithoutWatches(r.watches, j, f, kind);
      }
    }
  }

  lemma UnmonitorMaxIff(r: Registry, fd: nat)
    requires LastOf(r.watches, fd) >= 0
    ensures IsMax(Unmonitored(r, fd).watches, Unmonitored(r, fd).maxfd)
      <==> !Again(r.watches, LastOf(r.watches, fd), fd) || fd <= MaxOther(r.watches, fd)
  {
    var ws, j, m := r.watches, LastOf(r.watches, fd), MaxOther(r.watches, fd);
    var ws' := Without(ws, j);
    OthersMax(ws, fd);
    forall i | 0 <= i < |ws| && i != j ensures ws[i] in ws' {
      WithoutAt(ws, j, i);
    }
    forall k | 0 <= k < |ws'| ensures exists i :: 0 <= i < |ws| && i != j && ws[i] == ws'[k] {
      WithoutFrom(ws, j, k);
      assert ws[if k < j then k else k + 1] == ws'[k];
    }
    if m != 0 {
      var i :| 0 <= i < |ws| && ws[i].fd != fd && ws[i].fd == m;
      assert ws[i] in ws';
    }
    if Again(ws, j, fd) {
      var i :| 0 <= i < |ws| && i != j && ws[i].fd == fd;
      assert ws[i] in ws';
    }
  }

  /** Taking a watched descriptor off leaves the sets and the maximum right exactly when it is not
      watched twice for the same thing, nor twice at all while above all others. */
  lemma UnmonitorKeepsIff(r: Registry, fd: nat)
    requires Exact(r)
    ensures var j := LastOf(r.watches, fd);
      Exact(Unmonitored(r, fd)) <==>
        j < 0 || (!SameAgain(r.watches, j) && (!Again(r.watches, j, fd) || fd <= MaxOther(r.watches, fd)))
  {
    if LastOf(r.watches, fd) >= 0 {
      UnmonitorSetsIff(r, fd);
      UnmonitorMaxIff(r, fd);
    }
  }

  // ----- runs -----

  datatype Call = Monitor(w: Watch) | Unmonitor(fd: nat)

  function Called(r: Registry, c: Call): Registry {
    match c
    case Monitor(w) => Monitored(r, w)
    case Unmonitor(fd) => Unmonitored(r, fd)
  }

  function Run(calls: seq<Call>): Registry
    decreases |calls|
  {
    if calls == [] then NoWatches() else Called(Run(calls[..|calls| - 1]), calls[|calls| - 1])
  }

  ghost predicate DistinctFds(ws: seq<Watch>) {
    forall i, j :: 0 <= i < j < |ws| ==> ws[i].fd != ws[j].fd
  }

  /** No descriptor is watched again while it is. */
  ghost predicate Careful(calls: seq<Call>)
    decreases |calls|
  {
    calls == [] ||
    (Careful(calls[..|calls| - 1]) &&
     var last := calls[|calls| - 1];
     last.Monitor? ==> LastOf(Run(calls[..|calls| - 1]).watches, last.w.fd) < 0)
  }

  lemma CalledKeeps(r: Registry, c: Call)
    requires Exact(r) && DistinctFds(r.watches) && (c.Monitor? ==> LastOf(r.watches, c.w.fd) < 0)
    ensures Exact(Called(r, c)) && DistinctFds(Called(r, c).watches)
  {
    match c
    case Monitor(w) =>
      MonitorKeeps(r, w);
    case Unmonitor(fd) =>
      UnmonitorKeepsIff(r, fd);
      var j := LastOf(r.watches, fd);
      if j >= 0 {
        forall i, k | 0 <= i < k < |r.watches| - 1 ensures Without(r.watches, j)[i].fd != Without(r.watches, j)[k].fd {
          WithoutFrom(r.watches, j, i);
          WithoutFrom(r.watches, j, k);
        }
      }
  }

  /** So over any run that watches no descriptor twice at a time, each set is the descriptors watched
      for its kind, and the maximum is theirs. */
  lemma {:induction false} RunExact(calls: seq<Call>)
    requires Careful(calls)
    ensures Exact(Run(calls)) && DistinctFds(Run(calls).watches)
    decreases |calls|
  {
    if calls == [] {
      NoWatchesExact();
    } else {
      RunExact(calls[..|calls| - 1]);
      CalledKeeps(Run(calls[..|calls| - 1]), calls[|calls| - 1]);
    }
  }

  /** The watches of all descriptors but `fd`. */
  function Others(ws: seq<Watch>, fd: nat): seq<Watch> {
    if ws == [] then [] else Others(ws[..|ws| - 1], fd) + if ws[|ws| - 1].fd == fd then [] else [ws[|ws| - 1]]
  }

  /** What is watched after the calls, told from them: each watch as it was put in, until its descriptor is
      taken off. */
  function Live(calls: seq<Call>): seq<Watch> {
    if calls == [] then []
    else
      var before := Live(calls[..|calls| - 1]);
      match calls[|calls| - 1]
      case Monitor(w) => before + [w]
      case Unmonitor(fd) => Others(before, fd)
  }

  lemma WithoutEarlier(ws: seq<Watch>, j: nat)
    requires j < |ws| - 1
    ensures Without(ws, j) == Without(ws[..|ws| - 1], j) + [ws[|ws| - 1]]
  {
    var n := |ws| - 1;
    assert ws == ws[..n] + [ws[n]];
    assert ws[j + 1..] == ws[..n][j + 1..] + [ws[n]];
  }

  lemma {:induction false} OthersAre(ws: seq<Watch>, fd: nat)
    requires DistinctFds(ws)
    ensures var j := LastOf(ws, fd); Others(ws, fd) == if j < 0 then ws else Without(ws, j)
    decreases |ws|
  {
    if ws != [] {
      var n := |ws| - 1;
      OthersAre(ws[..n], fd);
      var j := LastOf(ws, fd);
      if j == n {
        NoneOf(ws[..n], fd);
      } else if j >= 0 {
        WithoutEarlier(ws, j);
      } else {
        assert ws == ws[..n] + [ws[n]];
      }
    }
  }

  lemma {:induction false} NoneOf(ws: seq<Watch>, fd: nat)
    requires forall i :: 0 <= i < |ws| ==> ws[i].fd != fd
    ensures Others(ws, fd) == ws
    decreases |ws|
  {
    if ws != [] {
      NoneOf(ws[..|ws| - 1], fd);
      assert ws == ws[..|ws| - 1] + [ws[|ws| - 1]];
    }
  }

  /** Over any such run the registry has exactly the watches given and not taken off since, in order. */
  lemma {:induction false} RunIsLive(calls: seq<Call>)
    requires Careful(calls)
    ensures Run(calls).watches == Live(calls)
    decreases |calls|
  {
    if calls != [] {
      var n := |calls| - 1;
      RunIsLive(calls[..n]);
      RunExact(calls[..n]);
      if calls[n].Unmonitor? { OthersAre(Run(calls[..n]).watches, calls[n].fd); }
    }
  }

  /** In any registry the watch taken off is the last of its descriptor, and the others stay in order. */
  lemma UnmonitorTakesLast(r: Registry, a: seq<Watch>, w: Watch, b: seq<Watch>)
    requires r.watches == a + [w] + b && forall i :: 0 <= i < |b| ==> b[i].fd != w.fd
    ensures Unmonitored(r, w.fd).watches == a + b
  {
    var j := LastOf(r.watches, w.fd);
    assert r.watches[|a|] == w;
    assert forall i :: |a| < i < |r.watches| ==> r.watches[i] == b[i - |a| - 1];
    assert j == |a|;
  }

  lemma RunTwo(c: Call, d: Call)
    ensures Run([c, d]) == Called(Called(NoWatches(), c), d)
  {
    assert [c, d][..1] == [c] && [c][..0] == [] && Run([]) == NoWatches() && Run([c]) == Called(NoWatches(), c);
  }

  lemma RunThree(c: Call, d: Call, e: Call)
    ensures Run([c, d, e]) == Called(Called(Called(NoWatches(), c), d), e)
  {
    assert [c, d, e][..2] == [c, d];
    RunTwo(c, d);
  }

  /** Watching a descriptor twice for reading and taking it off once leaves it watched and in no set. */
  lemma RepeatSpoilsSet(a: nat, b: nat)
    ensures var r := Run([Monitor(Watch(3, Read, a)), Monitor(Watch(3, Read, b)), Unmonitor(3)]);
      r.watches == [Watch(3, Read, a)] && r.fds.rfds == {} && !Exact(r)
  {
    var w, v := Watch(3, Read, a), Watch(3, Read, b);
    RunThree(Monitor(w), Monitor(v), Unmonitor(3));
    assert LastOf([w, v], 3) == 1 && [w, v][..1] + [w, v][2..] == [w];
    assert [w][0].fd == 3 && Watched([w], 3, Read);
  }

  /** Watching it for reading and for writing and taking it off once leaves the sets right and the
      maximum 0. */
  lemma RepeatSpoilsMax(a: nat, b: nat)
    ensures var r := Run([Monitor(Watch(3, Read, a)), Monitor(Watch(3, Write, b)), Unmonitor(3)]);
      r.watches == [Watch(3, Read, a)] && SetsExact(r) && r.maxfd == 0 && !IsMax(r.watches, r.maxfd)
  {
    var w, v := Watch(3, Read, a), Watch(3, Write, b);
    RunThree(Monitor(w), Monitor(v), Unmonitor(3));
    var r := Run([Monitor(w), Monitor(v), Unmonitor(3)]);
    assert LastOf([w, v], 3) == 1 && [w, v][..1] + [w, v][2..] == [w];
    assert [w, v][..1] == [w] && [w][..0] == [] && MaxOther([], 3) == 0 && MaxOther([w], 3) == 0
        && MaxOther([w, v], 3) == 0;
    assert Called(Called(NoWatches(), Monitor(w)), Monitor(v)).watches == [w, v];
    forall kind: Kind, fd: nat ensures Watched([w], fd, kind) <==> fd == 3 && kind == Read {
      assert [w][0] == w;
    }
    assert [w][0].fd == 3;
  }

  // ----- dispatch -----

  predicate Ready(w: Watch, ready: Sets) {
    w.fd in Of(ready, w.kind)
  }

  /** The callbacks called, in order, and whether events are done then; `stops` are the callbacks that
      stop events processing. */
  function Dispatched(ws: seq<Watch>, ready: Sets, stops: set<nat>, done: bool): (seq<nat>, bool) {
    if ws == [] then ([], done)
    else
      var calls := if Ready(ws[0], ready) then [ws[0].callback] else [];
      var done' := done || (Ready(ws[0], ready) && ws[0].callback in stops);
      if done' then (calls, true)
      else
        var rest := Dispatched(ws[1..], ready, stops, done');
        (calls + rest.0, rest.1)
  }

  /** The watch's descriptor is in the set that `select` returned for its kind. */
  predicate InItsSet(w: Watch, ready: Sets) {
    || (w.kind == Read && w.fd in ready.rfds) || (w.kind == Write && w.fd in ready.wfds)
    || (w.kind == Exception && w.fd in ready.efds)
  }

  function ReadyCalls(ws: seq<Watch>, ready: Sets): seq<nat> {
    if ws == [] then [] else (if InItsSet(ws[0], ready) then [ws[0].callback] else []) + ReadyCalls(ws[1..], ready)
  }

  /** The calls up to and including the first that stops. */
  function Through(calls: seq<nat>, stops: set<nat>): seq<nat> {
    if calls == [] then []
    else if calls[0] in stops then [calls[0]]
    else [calls[0]] + Through(calls[1..], stops)
  }

  /** Exactly the watches ready are called, each once, in the order they were put in, up to and
      including the first whose callback stops events; and then events are done. When they are done
      already, the first watch is called all the same if it is ready, and no other. */
  lemma {:induction false} DispatchCallsReady(ws: seq<Watch>, ready: Sets, stops: set<nat>)
    ensures Dispatched(ws, ready, stops, false).0 == Through(ReadyCalls(ws, ready), stops)
    ensures Dispatched(ws, ready, stops, false).1 <==> exists c :: c in ReadyCalls(ws, ready) && c in stops
    ensures Dispatched(ws, ready, stops, true).1
    ensures Dispatched(ws, ready, stops, true).0 == if ws == [] then [] else ReadyCalls(ws[..1], ready)
  {
    if ws != [] { assert ws[..1][1..] == [] && ReadyCalls([], ready) == []; }
    if ws != [] {
      DispatchCallsReady(ws[1..], ready, stops);
      var rest := ReadyCalls(ws[1..], ready);
      if InItsSet(ws[0], ready) {
        assert ReadyCalls(ws, ready)[0] == ws[0].callback && ReadyCalls(ws, ready)[1..] == rest;
        assert forall c :: c in ReadyCalls(ws, ready) <==> c == ws[0].callback || c in rest;
      } else {
        assert ReadyCalls(ws, ready) == rest;
      }
    }
  }

  /** The calls made and those to come are all. */
  ghost predicate Reaches(calls: seq<nat>, rest: (seq<nat>, bool), total: (seq<nat>, bool)) {
    calls + rest.0 == total.0 && rest.1 == total.1
  }

  lemma ReachesMore(calls: seq<nat>, called: seq<nat>, rest: (seq<nat>, bool), total: (seq<nat>, bool))
    ensures Reaches(calls, (called + rest.0, rest.1), total) ==> Reaches(calls + called, rest, total)
  {
    assert calls + (called + rest.0) == calls + called + rest.0;
  }

  lemma DispatchOne(ws: seq<Watch>, i: nat, ready: Sets, stops: set<nat>, done: bool)
    requires i < |ws|
    ensures var calls := if Ready(ws[i], ready) then [ws[i].callback] else [];
      var done' := done || (Ready(ws[i], ready) && ws[i].callback in stops);
      var rest := Dispatched(ws[i + 1..], ready, stops, done');
      Dispatched(ws[i..], ready, stops, done) == if done' then (calls, true) else (calls + rest.0, rest.1)
  {
    assert ws[i..][1..] == ws[i + 1..];
  }

  // ----- the registry on the list -----

  ghost predicate Owned(links: seq<Entry>, owner: map<Entry, Watch>) {
    forall i :: 0 <= i < |links| ==> links[i] in owner
  }

  function WatchesOf(links: seq<Entry>, owner: map<Entry, Watch>): (ws: seq<Watch>)
    requires Owned(links, owner)
    ensures |ws| == |links|
    ensures forall i :: 0 <= i < |links| ==> ws[i] == owner[links[i]]
  {
    seq(|links|, i requires 0 <= i < |links| => owner[links[i]])
  }

  lemma Onward(head: Entry, links: seq<Entry>, i: nat)
    requires List(head, links) && i < |links|
    ensures links[i] != head && links[i].next == if i + 1 < |links| then links[i + 1] else head
  {
    var c := [head] + links;
    assert c[i + 1] == links[i] && c[0] == head && (i + 1 < |links| ==> c[i + 2] == links[i + 1]);
  }

  lemma OneMoreOwned(links: seq<Entry>, owner: map<Entry, Watch>, e: Entry, w: Watch)
    requires Owned(links, owner) && e !in links
    ensures Owned(links + [e], owner[e := w]) && WatchesOf(links + [e], owner[e := w]) == WatchesOf(links, owner) + [w]
  {
    assert forall i :: 0 <= i < |links| ==> links[i] in links;
  }

  lemma OneLessOwned(links: seq<Entry>, owner: map<Entry, Watch>, j: nat)
    requires Owned(links, owner) && j < |links|
    ensures Owned(links[..j] + links[j + 1..], owner)
    ensures WatchesOf(links[..j] + links[j + 1..], owner) == Without(WatchesOf(links, owner), j)
  {
  }

  class EventList {
    const head: Entry
    var done: bool
    var maxfd: nat
    var fds: Sets
    /** The watch each entry is part of. */
    var owner: map<Entry, Watch>
    ghost var links: seq<Entry>

    ghost predicate Valid()
      reads this, head, links
    {
      List(head, links) && Owned(links, owner)
    }

    ghost function Watches(): (ws: seq<Watch>)
      reads this, head, links
      requires Valid()
      ensures |ws| == |links|
    {
      WatchesOf(links, owner)
    }

    ghost function Value(): Registry
      reads this, head, links
      requires Valid()
    {
      Registry(Watches(), maxfd, fds)
    }

    /** `events_init`. */
    constructor ()
      ensures Valid() && fresh(head) && Value() == NoWatches() && !done
    {
      head := new Entry();
      done, maxfd, fds, owner, links := false, 0, Sets({}, {}, {}), map[], [];
      new;
      InitListHead(head);
    }

    /** `events_monitor_fd`. */
    method Monitor(w: Watch)
      requires Valid()
      modifies this, head, links
      ensures Valid() && Value() == Monitored(old(Value()), w) && done == old(done)
      ensures |links| == |old(links)| + 1 && fresh(links[|links| - 1]) && links[..|old(links)|] == old(links)
    {
      var e := new Entry();
      fds := With(fds, w.kind, Of(fds, w.kind) + {w.fd});
      maxfd := Max(maxfd, w.fd);
      OneMoreOwned(links, owner, e, w);
      AddTail(e, head, links);
      owner := owner[e := w];
      links := links + [e];
    }

    /** The traversal of `events_unmonitor_fd`: the last watch of `fd`, and the maximum of the others. */
    method Find(fd: nat) returns (event: Entry?, max: nat)
      requires Valid()
      ensures var j := LastOf(Watches(), fd); if j < 0 then event == null else event == links[j]
      ensures max == MaxOther(Watches(), fd)
    {
      event, max := null, 0;
      var entry := head.next;
      ghost var i, ws := 0, Watches();
      Neighbours(head, links);
      assert ws[..0] == [];
      while entry != head
        invariant 0 <= i <= |links| && entry == (if i < |links| then links[i] else head)
        invariant var j := LastOf(ws[..i], fd); if j < 0 then event == null else event == links[j]
        invariant max == MaxOther(ws[..i], fd)
        decreases |links| - i
      {
        Onward(head, links, i);
        assert ws[..i + 1][..i] == ws[..i];
        if owner[entry].fd == fd {
          event := entry;
        } else {
          max := Max(max, owner[entry].fd);
        }
        entry := entry.next;
        i := i + 1;
      }
      Alone(head, links);
      assert ws[..i] == ws;
    }

    /** `events_unmonitor_fd`. */
    method Unmonitor(fd: nat)
      requires Valid()
      modifies this, head, links
      ensures Valid() && Value() == Unmonitored(old(Value()), fd) && done == old(done)
      ensures var j := LastOf(old(Watches()), fd);
        links == if j < 0 then old(links) else old(links)[..j] + old(links)[j + 1..]
    {
      ghost var r := Value();
      var event, max := Find(fd);
      if event == null { return; }
      ghost var j := LastOf(r.watches, fd);
      assert owner[event] == r.watches[j];
      Unset(owner[event].kind, fd, max);
      Forget(event, j);
      assert Watches() == Without(r.watches, j);
    }

    /** The descriptor out of its set, and the maximum of the others. */
    method Unset(kind: Kind, fd: nat, max: nat)
      requires Valid()
      modifies this`fds, this`maxfd
      ensures Valid() && Watches() == old(Watches())
      ensures fds == With(old(fds), kind, Of(old(fds), kind) - {fd}) && maxfd == max
    {
      fds := With(fds, kind, Of(fds, kind) - {fd});
      maxfd := max;
    }

    /** The entry off the list. */
    method Forget(event: Entry, ghost j: nat)
      requires Valid() && j < |links| && event == links[j]
      modifies this`links, head, links
      ensures Valid() && Watches() == Without(old(Watches()), j) && links == old(links)[..j] + old(links)[j + 1..]
    {
      OneLessOwned(links, owner, j);
      ghost var a, b := links[..j], links[j + 1..];
      assert links == a + [event] + b;
      assert forall x :: x in a || x in b ==> x in links;
      Del(event, head, a, b);
      links := a + b;
    }

    method CallIfReady(w: Watch, ready: Sets, stops: set<nat>) returns (calls: seq<nat>)
      modifies this`done
      ensures calls == if Ready(w, ready) then [w.callback] else []
      ensures done == (old(done) || (Ready(w, ready) && w.callback in stops))
    {
      calls := [];
      if Ready(w, ready) {
        calls := [w.callback];
        done := done || w.callback in stops;
      }
    }

    /** `events_dispatch`: `stops` are the callbacks that set `done`. */
    method Dispatch(ready: Sets, stops: set<nat>) returns (calls: seq<nat>)
      requires Valid()
      modifies this`done
      ensures Valid() && Value() == old(Value())
      ensures (calls, done) == Dispatched(old(Watches()), ready, stops, old(done))
    {
      calls := [];
      var event := head.next;
      ghost var i, ws := 0, Watches();
      Neighbours(head, links);
      ghost var total := Dispatched(ws, ready, stops, done);
      assert ws[0..] == ws && [] + total.0 == total.0;
      while event != head
        invariant 0 <= i <= |links| && event == (if i < |links| then links[i] else head)
        invariant Valid() && ws == Watches()
        invariant Reaches(calls, Dispatched(ws[i..], ready, stops, done), total)
        decreases |links| - i
      {
        Onward(head, links, i);
        DispatchOne(ws, i, ready, stops, done);
        ghost var before := calls;
        var called := CallIfReady(owner[event], ready, stops);
        calls := calls + called;
        ReachesMore(before, called, Dispatched(ws[i + 1..], ready, stops, done), total);
        if done { return; }
        event := event.next;
        i := i + 1;
      }
      Alone(head, links);
      assert ws[i..] == [] && calls + [] == calls;
    }
  }
}
