/** The intrusive circular list: entries linked both ways into a ring, one of them the head. Each
    operation rewires a few links, and is proved to make the list its sequence says. */
module KernelList {
  /** A list entry. A deleted entry's links are poison: here, null. */
  class Entry {
    var next: Entry?
    var prev: Entry?

    constructor ()
      ensures next == null && prev == null
    {
      next, prev := null, null;
    }
  }

  predicate Distinct<T(==)>(c: seq<T>) {
    forall i, j :: 0 <= i < j < |c| ==> c[i] != c[j]
  }

  predicate Apart<T(==)>(a: seq<T>, b: seq<T>) {
    forall i, j :: 0 <= i < |a| && 0 <= j < |b| ==> a[i] != b[j]
  }

  /** The entries of `c` one after another, both ways. */
  ghost predicate Chain(c: seq<Entry>)
    reads c
  {
    forall i :: 0 <= i < |c| - 1 ==> c[i].next == c[i + 1] && c[i + 1].prev == c[i]
  }

  /** `c` all the way round. */
  ghost predicate Ring(c: seq<Entry>)
    reads c
  {
    c != [] && Distinct(c) && Chain(c) && c[|c| - 1].next == c[0] && c[0].prev == c[|c| - 1]
  }

  /** A list: its head, and its entries in order. */
  ghost predicate List(head: Entry, nodes: seq<Entry>)
    reads head, nodes
  {
    Ring([head] + nodes)
  }

  /** A ring may be told from any of its entries. */
  lemma Turn(c: seq<Entry>, k: nat)
    requires Ring(c) && k < |c|
    ensures Ring(c[k..] + c[..k])
  {
    var d := c[k..] + c[..k];
    forall i | 0 <= i < |d| - 1 ensures d[i].next == d[i + 1] && d[i + 1].prev == d[i] {
      if i == |c| - k - 1 {
        assert d[i] == c[|c| - 1] && d[i + 1] == c[0];
      }
    }
  }

  /** The same for a list told from one of its entries. */
  lemma TurnTo(head: Entry, a: seq<Entry>, e: Entry, b: seq<Entry>)
    ensures List(head, a + [e] + b) <==> Ring([e] + (b + [head] + a))
  {
    var c, d := [head] + (a + [e] + b), [e] + (b + [head] + a);
    if Ring(c) {
      Turn(c, |a| + 1);
      assert c[|a| + 1..] + c[..|a| + 1] == d;
    }
    if Ring(d) {
      Turn(d, |b| + 1);
      assert d[|b| + 1..] + d[..|b| + 1] == c;
    }
  }

  method InitListHead(list: Entry)
    modifies list
    ensures List(list, [])
  {
    list.next := list;
    list.prev := list;
  }

  /** The first of two runs of a ring moved behind the second. */
  lemma Swap(a: seq<Entry>, b: seq<Entry>)
    requires Ring(a + b)
    ensures Ring(b + a)
  {
    if b == [] || a == [] {
      assert a + b == b + a;
    } else {
      Turn(a + b, |a|);
      assert (a + b)[|a|..] + (a + b)[..|a|] == b + a;
    }
  }

  // ----- putting in -----

  /** `__list_add`, between the last entry of a ring and its first. */
  method AddBetween(e: Entry, prev: Entry, next: Entry, ghost c: seq<Entry>)
    requires Ring(c) && next == c[0] && prev == c[|c| - 1] && e !in c
    modifies next`prev, prev`next, e
    ensures Ring(c + [e])
  {
    next.prev := e;
    e.next := next;
    e.prev := prev;
    prev.next := e;
  }

  /** `list_add`: after the head. */
  method Add(e: Entry, head: Entry, ghost nodes: seq<Entry>)
    requires List(head, nodes) && e !in [head] + nodes
    modifies head, nodes, e
    ensures List(head, [e] + nodes)
  {
    Swap([head], nodes);
    AddBetween(e, head, head.next, nodes + [head]);
    assert nodes + [head] + [e] == nodes + [head, e];
    Swap(nodes, [head, e]);
    assert [head, e] + nodes == [head] + ([e] + nodes);
  }

  /** `list_add_tail`: before the head. */
  method AddTail(e: Entry, head: Entry, ghost nodes: seq<Entry>)
    requires List(head, nodes) && e !in [head] + nodes
    modifies head, nodes, e
    ensures List(head, nodes + [e])
  {
    AddBetween(e, head.prev, head, [head] + nodes);
    assert [head] + nodes + [e] == [head] + (nodes + [e]);
  }

  // ----- taking out -----

  lemma Alone(e: Entry, rest: seq<Entry>)
    requires Distinct([e] + rest)
    ensures e !in rest && Distinct(rest)
  {
    var c := [e] + rest;
    assert c[0] == e && forall i :: 0 <= i < |rest| ==> rest[i] == c[i + 1];
  }

  /** Its neighbours are the ends of the rest of its ring. */
  lemma Neighbours(e: Entry, rest: seq<Entry>)
    requires Ring([e] + rest)
    ensures rest != [] ==> e.next == rest[0] && e.prev == rest[|rest| - 1]
    ensures rest == [] ==> e.next == e && e.prev == e
  {
    var c := [e] + rest;
    assert rest != [] ==> c[1] == rest[0] && c[|c| - 1] == rest[|rest| - 1];
  }

  /** `__list_del`, of an entry told first in its ring. */
  method DelBetween(prev: Entry, next: Entry, ghost e: Entry, ghost rest: seq<Entry>)
    requires Ring([e] + rest) && e.prev == prev && e.next == next
    modifies next`prev, prev`next
    ensures rest != [] ==> Ring(rest)
    ensures rest == [] ==> Ring([e])
  {
    Neighbours(e, rest);
    assert forall i :: 0 <= i < |rest| ==> rest[i] == ([e] + rest)[i + 1];
    assert Distinct(rest) && Chain(rest);
    next.prev := prev;
    prev.next := next;
  }

  /** `__list_del_entry`: the entry's own links stay. */
  method DelEntry(e: Entry, ghost head: Entry, ghost a: seq<Entry>, ghost b: seq<Entry>)
    requires List(head, a + [e] + b)
    modifies head, a, b
    ensures List(head, a + b)
  {
    TurnTo(head, a, e, b);
    ghost var rest := b + ([head] + a);
    assert b + [head] + a == rest;
    Alone(e, rest);
    Neighbours(e, rest);
    assert rest[0] in rest && rest[|rest| - 1] in rest;
    DelBetween(e.prev, e.next, e, rest);
    Swap(b, [head] + a);
    assert [head] + a + b == [head] + (a + b);
  }

  lemma NotOf(head: Entry, a: seq<Entry>, e: Entry, b: seq<Entry>)
    requires Distinct([head] + (a + [e] + b))
    ensures e !in [head] + (a + b) && e !in a && e !in b && e != head
  {
    var c := [head] + (a + [e] + b);
    assert c[0] == head && c[|a| + 1] == e;
    assert forall i :: 0 <= i < |a| ==> a[i] == c[i + 1];
    assert forall i :: 0 <= i < |b| ==> b[i] == c[|a| + 2 + i];
  }

  /** `list_del`: the entry's own links are poison after it. */
  method Del(e: Entry, ghost head: Entry, ghost a: seq<Entry>, ghost b: seq<Entry>)
    requires List(head, a + [e] + b)
    modifies head, a, b, e
    ensures List(head, a + b) && e.next == null && e.prev == null
  {
    NotOf(head, a, e, b);
    DelEntry(e, head, a, b);
    e.next := null;
    e.prev := null;
  }

  /** `list_del_init`: the entry is an empty list after it. */
  method DelInit(e: Entry, ghost head: Entry, ghost a: seq<Entry>, ghost b: seq<Entry>)
    requires List(head, a + [e] + b)
    modifies head, a, b, e
    ensures List(head, a + b) && List(e, [])
  {
    NotOf(head, a, e, b);
    DelEntry(e, head, a, b);
    InitListHead(e);
  }

  /** `list_replace`, of an entry told first in its ring, which may be alone in it. */
  method Replace(old_: Entry, e: Entry, ghost rest: seq<Entry>)
    requires Ring([old_] + rest) && e !in [old_] + rest
    modifies old_, e, rest
    ensures Ring([e] + rest)
  {
    ghost var c := [old_] + rest;
    Alone(old_, rest);
    Neighbours(old_, rest);
    assert rest != [] ==> rest[0] in rest && rest[|rest| - 1] in rest;
    assert forall i :: 0 <= i < |rest| ==> rest[i] == c[i + 1];
    assert old_ in c && e != old_;
    e.next := old_.next;
    e.next.prev := e;
    e.prev := old_.prev;
    e.prev.next := e;
  }

  /** `list_replace_init`: the old entry is an empty list after it, if it was not one. */
  method ReplaceInit(old_: Entry, e: Entry, ghost rest: seq<Entry>)
    requires Ring([old_] + rest) && e !in [old_] + rest
    modifies old_, e, rest
    ensures Ring([e] + rest) && List(old_, [])
  {
    Alone(old_, rest);
    assert old_ in [old_] + rest;
    Replace(old_, e, rest);
    InitListHead(old_);
  }

  // ----- moving -----

  /** What `list_move` may be given: an entry of the list itself, or of another. */
  ghost predicate Movable(e: Entry, from: Entry, a: seq<Entry>, b: seq<Entry>, head: Entry, nodes: seq<Entry>)
    reads from, a, b, e, head, nodes
  {
    && List(from, a + [e] + b)
    && (if from == head then nodes == a + b else List(head, nodes) && Apart([from] + (a + [e] + b), [head] + nodes))
  }

  lemma Others(e: Entry, from: Entry, a: seq<Entry>, b: seq<Entry>, head: Entry, nodes: seq<Entry>)
    requires Apart([from] + (a + [e] + b), [head] + nodes)
    ensures e !in [head] + nodes
    ensures forall x :: x in [head] + nodes ==> x != from && x !in a && x !in b
    ensures forall x :: x in [from] + (a + b) ==> x != head && x !in nodes
  {
    var c, d := [from] + (a + [e] + b), [head] + nodes;
    assert c[0] == from && c[|a| + 1] == e && d[0] == head;
    assert forall i :: 0 <= i < |a| ==> a[i] == c[i + 1];
    assert forall i :: 0 <= i < |b| ==> b[i] == c[|a| + 2 + i];
    assert forall i :: 0 <= i < |nodes| ==> nodes[i] == d[i + 1];
  }

  /** Taking the entry out, and leaving another list alone. */
  method TakeOut(e: Entry, ghost from: Entry, ghost a: seq<Entry>, ghost b: seq<Entry>, ghost head: Entry,
      ghost nodes: seq<Entry>)
    requires Movable(e, from, a, b, head, nodes)
    modifies from, a, b
    ensures List(from, a + b) && List(head, nodes)
  {
    if from != head { Others(e, from, a, b, head, nodes); }
    ghost var c := [head] + nodes;
    DelEntry(e, from, a, b);
    if from != head {
      forall i | 0 <= i < |c| ensures c[i].next == old(c[i].next) && c[i].prev == old(c[i].prev) {
        assert c[i] in c;
      }
    }
  }

  /** `list_move`: the entry is the first of the list, and gone from where it was. */
  method Move(e: Entry, head: Entry, ghost from: Entry, ghost a: seq<Entry>, ghost b: seq<Entry>,
      ghost nodes: seq<Entry>)
    requires Movable(e, from, a, b, head, nodes)
    modifies from, a, b, e, head, nodes
    ensures List(head, [e] + nodes) && (from != head ==> List(from, a + b))
  {
    NotOf(from, a, e, b);
    if from != head { Others(e, from, a, b, head, nodes); }
    ghost var c := [from] + (a + b);
    TakeOut(e, from, a, b, head, nodes);
    label Out:
    Add(e, head, nodes);
    if from != head {
      forall i | 0 <= i < |c| ensures c[i].next == old@Out(c[i].next) && c[i].prev == old@Out(c[i].prev) {
        assert c[i] in c;
      }
    }
  }

  /** `list_move_tail`: the last. */
  method MoveTail(e: Entry, head: Entry, ghost from: Entry, ghost a: seq<Entry>, ghost b: seq<Entry>,
      ghost nodes: seq<Entry>)
    requires Movable(e, from, a, b, head, nodes)
    modifies from, a, b, e, head, nodes
    ensures List(head, nodes + [e]) && (from != head ==> List(from, a + b))
  {
    NotOf(from, a, e, b);
    if from != head { Others(e, from, a, b, head, nodes); }
    ghost var c := [from] + (a + b);
    TakeOut(e, from, a, b, head, nodes);
    label Out:
    AddTail(e, head, nodes);
    if from != head {
      forall i | 0 <= i < |c| ensures c[i].next == old@Out(c[i].next) && c[i].prev == old@Out(c[i].prev) {
        assert c[i] in c;
      }
    }
  }

  // ----- tests -----

  /** `list_empty`. */
  method Empty(head: Entry, ghost nodes: seq<Entry>) returns (r: bool)
    requires List(head, nodes)
    ensures r <==> nodes == []
  {
    Neighbours(head, nodes);
    Alone(head, nodes);
    return head.next == head;
  }

  /** `list_is_last`. */
  method IsLast(list: Entry, head: Entry, ghost nodes: seq<Entry>) returns (r: bool)
    requires List(head, nodes) && list in [head] + nodes
    ensures r <==> list == ([head] + nodes)[|nodes|]
  {
    ghost var c := [head] + nodes;
    ghost var i :| 0 <= i < |c| && c[i] == list;
    assert i < |nodes| ==> list.next == c[i + 1] && c[i + 1] != c[0];
    return list.next == head;
  }

  /** `list_is_singular`. */
  method IsSingular(head: Entry, ghost nodes: seq<Entry>) returns (r: bool)
    requires List(head, nodes)
    ensures r <==> |nodes| == 1
  {
    Neighbours(head, nodes);
    Alone(head, nodes);
    var empty := Empty(head, nodes);
    return !empty && head.next == head.prev;
  }

  /** `list_rotate_left`. */
  method RotateLeft(head: Entry, ghost nodes: seq<Entry>)
    requires List(head, nodes)
    modifies head, nodes
    ensures List(head, if nodes == [] then [] else nodes[1..] + [nodes[0]])
  {
    var empty := Empty(head, nodes);
    if !empty {
      Neighbours(head, nodes);
      var first := head.next;
      assert nodes == [] + [first] + nodes[1..] && [] + nodes[1..] == nodes[1..];
      assert first in nodes && forall x :: x in nodes[1..] ==> x in nodes;
      MoveTail(first, head, head, [], nodes[1..], nodes[1..]);
    }
  }

  // ----- cutting and splicing -----

  /** The links between a head and the ends of its entries. */
  ghost predicate Ends(head: Entry, nodes: seq<Entry>)
    reads head, nodes
  {
    if nodes == [] then head.next == head && head.prev == head
    else
      && head.next == nodes[0] && nodes[0].prev == head
      && nodes[|nodes| - 1].next == head && head.prev == nodes[|nodes| - 1]
  }

  /** A list is its entries' links among themselves and those with its head. */
  lemma ListParts(head: Entry, nodes: seq<Entry>)
    ensures List(head, nodes) <==> Distinct([head] + nodes) && Chain(nodes) && Ends(head, nodes)
  {
    var c := [head] + nodes;
    assert c[0] == head && (nodes != [] ==> c[1] == nodes[0] && c[|c| - 1] == nodes[|nodes| - 1]);
    assert forall i :: 0 <= i < |nodes| ==> nodes[i] == c[i + 1];
  }

  /** Runs of links, joined by a link. */
  lemma ChainParts(xs: seq<Entry>, ys: seq<Entry>)
    requires xs != [] && ys != []
    ensures Chain(xs + ys) <==> Chain(xs) && Chain(ys) && xs[|xs| - 1].next == ys[0] && ys[0].prev == xs[|xs| - 1]
  {
    var c := xs + ys;
    if Chain(c) {
      assert c[|xs| - 1] == xs[|xs| - 1] && c[|xs|] == ys[0];
      assert forall i :: 0 <= i < |xs| ==> xs[i] == c[i];
      assert forall i :: 0 <= i < |ys| ==> ys[i] == c[|xs| + i];
    }
  }

  lemma DistinctParts(head: Entry, xs: seq<Entry>, ys: seq<Entry>)
    requires Distinct([head] + (xs + ys))
    ensures Distinct(xs) && Distinct([head] + ys) && (forall x :: x in xs ==> x != head && x !in ys)
  {
    var c := [head] + (xs + ys);
    assert c[0] == head;
    assert forall i :: 0 <= i < |xs| ==> xs[i] == c[i + 1];
    assert forall i :: 0 <= i < |ys| ==> ys[i] == c[|xs| + 1 + i];
  }

  /** `__list_cut_position`: the entries up to `entry` go to `list`. */
  method CutAfter(list: Entry, head: Entry, entry: Entry, ghost xs: seq<Entry>, ghost ys: seq<Entry>)
    requires List(head, xs + ys) && list !in [head] + (xs + ys) && xs != [] && entry == xs[|xs| - 1]
    modifies list, head, xs, ys
    ensures List(list, xs) && List(head, ys)
  {
    ListParts(head, xs + ys);
    DistinctParts(head, xs, ys);
    if ys != [] { ChainParts(xs, ys); } else { assert xs + ys == xs; }
    CutLinks(list, head, entry, xs, ys);
    Prepended(list, xs);
    ListParts(list, xs);
    ListParts(head, ys);
  }

  lemma Prepended(e: Entry, rest: seq<Entry>)
    requires e !in rest && Distinct(rest)
    ensures Distinct([e] + rest)
  {
  }

  method CutLinks(list: Entry, head: Entry, entry: Entry, ghost xs: seq<Entry>, ghost ys: seq<Entry>)
    requires xs != [] && entry == xs[|xs| - 1] && Chain(xs) && Chain(ys) && Ends(head, xs + ys)
    requires Distinct(xs) && Distinct([head] + ys) && (forall x :: x in xs ==> x != head && x !in ys)
    requires list != head && list !in xs && list !in ys
    requires entry.next == if ys == [] then head else ys[0]
    modifies list, head, xs, ys
    ensures Chain(xs) && Chain(ys) && Ends(list, xs) && Ends(head, ys)
  {
    assert xs[0] in xs && entry in xs && (ys != [] ==> ys[0] in ys && (xs + ys)[|xs + ys| - 1] == ys[|ys| - 1]);
    Alone(head, ys);
    var newFirst := entry.next;
    list.next := head.next;
    list.next.prev := list;
    list.prev := entry;
    entry.next := list;
    head.next := newFirst;
    newFirst.prev := head;
  }

  /** `entry` is the `k`-th of the ring, or on none of it when `k` is negative. */
  predicate Position(entry: Entry, head: Entry, nodes: seq<Entry>, k: int) {
    if k < 0 then entry !in [head] + nodes else k <= |nodes| && entry == ([head] + nodes)[k]
  }

  /** Whether there is anything to cut: not in an empty list, nor in one of a single other entry. */
  method Cuttable(head: Entry, entry: Entry, ghost nodes: seq<Entry>, ghost k: int) returns (r: bool)
    requires List(head, nodes) && Position(entry, head, nodes, k) && (k < 0 ==> |nodes| <= 1)
    ensures r <==> nodes != [] && k >= 0
  {
    var empty := Empty(head, nodes);
    if empty { return false; }
    var singular := IsSingular(head, nodes);
    Neighbours(head, nodes);
    assert nodes[0] == ([head] + nodes)[1] && head == ([head] + nodes)[0];
    return !singular || head.next == entry || head == entry;
  }

  lemma AtHead(entry: Entry, head: Entry, nodes: seq<Entry>, k: nat)
    requires Distinct([head] + nodes) && Position(entry, head, nodes, k)
    ensures entry == head <==> k == 0
    ensures k > 0 ==> nodes[..k][k - 1] == entry
  {
    assert ([head] + nodes)[0] == head;
  }

  /** `list_cut_position`: the entries up to the `k`-th, which is `entry`, go to `list`. An empty list
      is left alone, and so is one of a single entry when `entry` is not on it. */
  method CutPosition(list: Entry, head: Entry, entry: Entry, ghost nodes: seq<Entry>, ghost k: int)
    requires List(head, nodes) && list !in [head] + nodes && Position(entry, head, nodes, k) && (k < 0 ==> |nodes| <= 1)
    modifies list, head, nodes
    ensures nodes == [] || k < 0 ==> List(head, nodes) && list.next == old(list.next) && list.prev == old(list.prev)
    ensures nodes != [] && k >= 0 ==> List(list, nodes[..k]) && List(head, nodes[k..])
  {
    var cuttable := Cuttable(head, entry, nodes, k);
    if cuttable {
      AtHead(entry, head, nodes, k);
      CutBoth(list, head, entry, nodes, k);
    }
  }

  method CutBoth(list: Entry, head: Entry, entry: Entry, ghost nodes: seq<Entry>, ghost k: nat)
    requires List(head, nodes) && list !in [head] + nodes && k <= |nodes|
    requires (entry == head <==> k == 0) && (k > 0 ==> nodes[..k][k - 1] == entry)
    modifies list, head, nodes
    ensures List(list, nodes[..k]) && List(head, nodes[k..])
  {
    assert nodes[..k] + nodes[k..] == nodes;
    if entry == head {
      InitListHead(list);
    } else {
      CutAfter(list, head, entry, nodes[..k], nodes[k..]);
    }
  }

  method SpliceLinks(list: Entry, prev: Entry, next: Entry, ghost xs: seq<Entry>, ghost c: seq<Entry>)
    requires xs != [] && Chain(xs) && Ends(list, xs) && Distinct(xs)
    requires Ring(c) && next == c[0] && prev == c[|c| - 1] && (forall x :: x in xs ==> x !in c) && list !in xs
      && list !in c
    modifies xs, c
    ensures Chain(xs) && Chain(c)
    ensures c[|c| - 1].next == xs[0] && xs[0].prev == c[|c| - 1] && xs[|xs| - 1].next == c[0]
      && c[0].prev == xs[|xs| - 1]
  {
    assert xs[0] in xs && xs[|xs| - 1] in xs && c[0] in c && c[|c| - 1] in c;
    var first, last := list.next, list.prev;
    first.prev := prev;
    prev.next := first;
    last.next := next;
    next.prev := last;
  }

  /** `__list_splice`, between the last entry of a ring and its first. */
  method SpliceBetween(list: Entry, prev: Entry, next: Entry, ghost xs: seq<Entry>, ghost c: seq<Entry>)
    requires xs != [] && List(list, xs) && list !in c
    requires Ring(c) && next == c[0] && prev == c[|c| - 1] && (forall x :: x in xs ==> x !in c)
    modifies xs, c
    ensures Ring(c + xs)
  {
    ListParts(list, xs);
    Alone(list, xs);
    SpliceLinks(list, prev, next, xs, c);
    ChainParts(c, xs);
    Joined(c, xs);
  }

  lemma Joined(a: seq<Entry>, b: seq<Entry>)
    requires Distinct(a) && Distinct(b) && forall x :: x in b ==> x !in a
    ensures Distinct(a + b)
  {
    forall i, j | 0 <= i < j < |a + b| ensures (a + b)[i] != (a + b)[j] {
      if i < |a| <= j { assert (a + b)[i] in a && (a + b)[j] in b; }
    }
  }

  /** Two lists with no entry in common. */
  ghost predicate TwoLists(list: Entry, xs: seq<Entry>, head: Entry, nodes: seq<Entry>)
    reads list, xs, head, nodes
  {
    List(list, xs) && List(head, nodes) && list !in [head] + nodes && forall x :: x in xs ==> x !in [head] + nodes
  }

  /** `list_splice`: the entries of `list` go before those of `head`. */
  method Splice(list: Entry, head: Entry, ghost xs: seq<Entry>, ghost nodes: seq<Entry>)
    requires TwoLists(list, xs, head, nodes)
    modifies xs, head, nodes
    ensures List(head, xs + nodes)
  {
    var empty := Empty(list, xs);
    if empty {
      assert xs + nodes == nodes;
    } else {
      Swap([head], nodes);
      assert forall x :: x in nodes + [head] ==> x in [head] + nodes;
      SpliceBetween(list, head, head.next, xs, nodes + [head]);
      assert nodes + [head] + xs == nodes + ([head] + xs);
      Swap(nodes, [head] + xs);
      assert [head] + xs + nodes == [head] + (xs + nodes);
    }
  }

  /** `list_splice_tail`: after them. */
  method SpliceTail(list: Entry, head: Entry, ghost xs: seq<Entry>, ghost nodes: seq<Entry>)
    requires TwoLists(list, xs, head, nodes)
    modifies xs, head, nodes
    ensures List(head, nodes + xs)
  {
    var empty := Empty(list, xs);
    if empty {
      assert nodes + xs == nodes;
    } else {
      SpliceBetween(list, head.prev, head, xs, [head] + nodes);
      assert [head] + nodes + xs == [head] + (nodes + xs);
    }
  }

  /** `list_splice_init`: `list` is empty after it. */
  method SpliceInit(list: Entry, head: Entry, ghost xs: seq<Entry>, ghost nodes: seq<Entry>)
    requires TwoLists(list, xs, head, nodes)
    modifies list, xs, head, nodes
    ensures List(head, xs + nodes) && List(list, [])
  {
    ghost var c := [head] + (xs + nodes);
    Alone(list, xs);
    assert list !in c;
    var empty := Empty(list, xs);
    if empty {
      assert xs + nodes == nodes;
    } else {
      Splice(list, head, xs, nodes);
      InitListHead(list);
    }
  }

  /** `list_splice_tail_init`. */
  method SpliceTailInit(list: Entry, head: Entry, ghost xs: seq<Entry>, ghost nodes: seq<Entry>)
    requires TwoLists(list, xs, head, nodes)
    modifies list, xs, head, nodes
    ensures List(head, nodes + xs) && List(list, [])
  {
    ghost var c := [head] + (nodes + xs);
    Alone(list, xs);
    assert list !in c;
    var empty := Empty(list, xs);
    if empty {
      assert nodes + xs == nodes;
    } else {
      SpliceTail(list, head, xs, nodes);
      InitListHead(list);
    }
  }

  /** Cutting a list at an entry of it and splicing what was cut back is as if nothing had been done. */
  method CutAndSplice(list: Entry, head: Entry, entry: Entry, ghost nodes: seq<Entry>, ghost k: nat)
    requires List(head, nodes) && list !in [head] + nodes && k < |nodes| && entry == nodes[k]
    modifies list, head, nodes
    ensures List(head, nodes) && List(list, [])
  {
    assert ([head] + nodes)[k + 1] == entry && nodes[..k + 1] + nodes[k + 1..] == nodes;
    DistinctParts(head, nodes[..k + 1], nodes[k + 1..]);
    CutPosition(list, head, entry, nodes, k + 1);
    assert forall x :: x in nodes[..k + 1] || x in nodes[k + 1..] ==> x in nodes;
    SpliceInit(list, head, nodes[..k + 1], nodes[k + 1..]);
  }
}
