/**
 * The table of links a context holds to the others, the indices used to reach into it, and the
 * grouping of unsent messages by destination.
 */
module Links {
  import opened Sums
  import opened Sequences
  import opened Messages

  /** The context that position `k` of context `i`'s table leads to: the table skips `i` itself. */
  function LinkTarget(i: nat, k: nat): nat {
    if k < i then k else k + 1
  }

  /** The index that undoes the skip. */
  function IntendedLink(i: nat, j: nat): int {
    j - (if j > i then 1 else 0)
  }

  /** The index as written: the comparison is the other way round. */
  function CodedLink(i: nat, j: nat): int {
    j - (if i > j then 1 else 0)
  }

  predicate InTable(n: nat, index: int) {
    0 <= index < n - 1
  }

  /** The table reaches every other context, and the intended index is its inverse both ways. */
  lemma IntendedLinkInvertsTable(n: nat, i: nat)
    requires i < n
    ensures forall j :: 0 <= j < n && j != i ==>
      InTable(n, IntendedLink(i, j)) && LinkTarget(i, IntendedLink(i, j)) == j
    ensures forall k :: InTable(n, k) ==>
      LinkTarget(i, k) < n && LinkTarget(i, k) != i && IntendedLink(i, LinkTarget(i, k)) == k
  {
  }

  /**
   * The index as written never reaches the context it is asked for. It falls outside the table
   * exactly for the last context asked by an earlier one and for the first asked by a later one;
   * otherwise it leads to the neighbour on the far side.
   */
  lemma CodedLinkMissesEveryTarget(n: nat, i: nat, j: nat)
    requires i < n && j < n && i != j
    ensures InTable(n, CodedLink(i, j)) <==> !(j == n - 1 || j == 0)
    ensures InTable(n, CodedLink(i, j)) ==>
      LinkTarget(i, CodedLink(i, j)) == (if i < j then j + 1 else j - 1)
    ensures InTable(n, CodedLink(i, j)) ==> LinkTarget(i, CodedLink(i, j)) != j
  {
  }

  /** The messages among `sends` for context `d`, in order. */
  function ToDest(sends: seq<Send>, d: nat): seq<Send> {
    if sends == [] then []
    else (if sends[0].dest == d then [sends[0]] else []) + ToDest(sends[1..], d)
  }

  predicate SortedByDest(sends: seq<Send>) {
    forall a, b :: 0 <= a < b < |sends| ==> sends[a].dest <= sends[b].dest
  }

  /** `x` goes in front of the first message that is not for an earlier context. */
  function Insert(x: Send, sends: seq<Send>): (r: seq<Send>)
    ensures |r| == |sends| + 1
  {
    if sends == [] then [x]
    else if sends[0].dest < x.dest then [sends[0]] + Insert(x, sends[1..])
    else [x] + sends
  }

  /** A stable sort by destination. */
  function Grouped(sends: seq<Send>): (r: seq<Send>)
    ensures |r| == |sends|
  {
    if sends == [] then [] else Insert(sends[0], Grouped(sends[1..]))
  }

  lemma {:induction false} ToDestConcat(xs: seq<Send>, ys: seq<Send>, d: nat)
    ensures ToDest(xs + ys, d) == ToDest(xs, d) + ToDest(ys, d)
  {
    if xs == [] {
      Empty(ys);
    } else {
      HeadAndTail(xs, ys);
      ToDestConcat(xs[1..], ys, d);
      Associative(if xs[0].dest == d then [xs[0]] else [], ToDest(xs[1..], d), ToDest(ys, d));
    }
  }

  lemma ToDestSingle(x: Send, d: nat)
    ensures ToDest([x], d) == if x.dest == d then [x] else []
  {
    assert [x][1..] == [];
  }

  lemma {:induction false} ToDestNone(xs: seq<Send>, d: nat)
    requires forall x :: x in xs ==> x.dest != d
    ensures ToDest(xs, d) == []
  {
    if xs != [] {
      ToDestNone(xs[1..], d);
    }
  }

  lemma {:induction false} InsertKeepsOrder(x: Send, sends: seq<Send>)
    requires SortedByDest(sends)
    ensures SortedByDest(Insert(x, sends))
    ensures forall y :: y in Insert(x, sends) ==> y == x || y in sends
  {
    if sends != [] && sends[0].dest < x.dest {
      var rest := Insert(x, sends[1..]);
      InsertKeepsOrder(x, sends[1..]);
      forall b | 0 <= b < |rest|
        ensures sends[0].dest <= rest[b].dest
      {
        assert rest[b] in rest;
      }
    }
  }

  lemma {:induction false} InsertKeepsEachDest(x: Send, sends: seq<Send>, d: nat)
    requires SortedByDest(sends)
    ensures ToDest(Insert(x, sends), d) == ToDest([x], d) + ToDest(sends, d)
  {
    ToDestSingle(x, d);
    if sends != [] && sends[0].dest < x.dest {
      var rest := Insert(x, sends[1..]);
      InsertKeepsEachDest(x, sends[1..], d);
      assert ([sends[0]] + rest)[1..] == rest;
    } else {
      ToDestConcat([x], sends, d);
    }
  }

  /** Grouping orders the destinations and changes neither contents nor order for any of them. */
  lemma {:induction false} GroupedIsStableSort(sends: seq<Send>)
    ensures SortedByDest(Grouped(sends))
    ensures forall d: nat :: ToDest(Grouped(sends), d) == ToDest(sends, d)
  {
    if sends != [] {
      GroupedIsStableSort(sends[1..]);
      forall d: nat
        ensures ToDest(Grouped(sends), d) == ToDest(sends, d)
      {
        InsertKeepsEachDest(sends[0], Grouped(sends[1..]), d);
        assert [sends[0]] + sends[1..] == sends;
        ToDestConcat([sends[0]], sends[1..], d);
      }
      InsertKeepsOrder(sends[0], Grouped(sends[1..]));
    }
  }

  lemma {:induction false} ToDestMember(xs: seq<Send>, y: Send)
    ensures y in ToDest(xs, y.dest) <==> y in xs
  {
    if xs != [] {
      ToDestMember(xs[1..], y);
      assert y in xs <==> y == xs[0] || y in xs[1..];
    }
  }

  lemma GroupedMembers(sends: seq<Send>)
    ensures forall x :: x in Grouped(sends) <==> x in sends
  {
    GroupedIsStableSort(sends);
    forall x
      ensures x in Grouped(sends) <==> x in sends
    {
      ToDestMember(Grouped(sends), x);
      ToDestMember(sends, x);
    }
  }

  /** That determines it: every stable sort by destination yields this sequence. */
  lemma {:induction false} StableSortIsUnique(xs: seq<Send>, ys: seq<Send>)
    requires SortedByDest(xs) && SortedByDest(ys)
    requires forall d: nat :: ToDest(xs, d) == ToDest(ys, d)
    ensures xs == ys
  {
    if xs == [] {
      if ys != [] {
        ToDestMember(ys, ys[0]);
        assert false;
      }
    } else {
      ToDestMember(xs, xs[0]);
      assert xs[0] in ToDest(ys, xs[0].dest);
      ToDestMember(ys, xs[0]);
      ToDestMember(ys, ys[0]);
      assert ys[0] in ToDest(xs, ys[0].dest);
      ToDestMember(xs, ys[0]);
      assert xs[0].dest == ys[0].dest;
      assert ToDest(xs, xs[0].dest)[0] == ToDest(ys, xs[0].dest)[0];
      forall d: nat
        ensures ToDest(xs[1..], d) == ToDest(ys[1..], d)
      {
        if d == xs[0].dest {
          assert ToDest(xs[1..], d) == ToDest(xs, d)[1..];
          assert ToDest(ys[1..], d) == ToDest(ys, d)[1..];
        } else {
          assert ToDest(xs[1..], d) == ToDest(xs, d);
          assert ToDest(ys[1..], d) == ToDest(ys, d);
        }
      }
      StableSortIsUnique(xs[1..], ys[1..]);
    }
  }

  lemma {:induction false} InsertKeepsSum(f: Send -> nat, x: Send, sends: seq<Send>)
    ensures Sum(f, Insert(x, sends)) == f(x) + Sum(f, sends)
  {
    SumSingle(f, x);
    if sends != [] {
      if sends[0].dest < x.dest {
        InsertKeepsSum(f, x, sends[1..]);
        SumConcat(f, [sends[0]], Insert(x, sends[1..]));
        SumSingle(f, sends[0]);
      } else {
        SumConcat(f, [x], sends);
      }
    }
  }

  lemma {:induction false} GroupedKeepsSum(f: Send -> nat, sends: seq<Send>)
    ensures Sum(f, Grouped(sends)) == Sum(f, sends)
  {
    if sends != [] {
      GroupedKeepsSum(f, sends[1..]);
      InsertKeepsSum(f, sends[0], Grouped(sends[1..]));
    }
  }
}
