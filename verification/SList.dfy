/**
 The intrusive singly-linked lists of `sys/queue.h`, as every queue of the program uses them. The
 `next` map stands for the link field that each element carries.
 */
module SList {
  import opened Machine

  /** `xs` without its first `x`. */
  function Without<T(==)>(xs: seq<T>, x: T): seq<T> {
    if xs == [] then []
    else if xs[0] == x then xs[1..]
    else [xs[0]] + Without(xs[1..], x)
  }

  predicate Distinct<T(==)>(xs: seq<T>) {
    xs != [] ==> xs[0] !in xs[1..] && Distinct(xs[1..])
  }

  /** Removal takes one element out of a list without repetitions and keeps all others. */
  lemma {:induction false} WithoutMembers<T>(xs: seq<T>, x: T)
    requires Distinct(xs)
    ensures forall y :: y in Without(xs, x) <==> y in xs && y != x
    ensures Distinct(Without(xs, x))
    ensures x !in xs ==> Without(xs, x) == xs
    ensures x in xs ==> |Without(xs, x)| == |xs| - 1
  {
    if xs != [] {
      WithoutMembers(xs[1..], x);
      assert xs == [xs[0]] + xs[1..];
    }
  }

  lemma DistinctCons<T>(x: T, xs: seq<T>)
    requires Distinct(xs) && x !in xs
    ensures Distinct([x] + xs)
    ensures forall y :: y in [x] + xs <==> y == x || y in xs
  {
    assert ([x] + xs)[1..] == xs;
  }

  /** Following the links from `first` visits exactly `xs`, once each. */
  ghost predicate Chain<T>(first: Option<T>, next: map<T, Option<T>>, xs: seq<T>)
    decreases |xs|
  {
    if xs == [] then first == None
    else
      && first == Some(xs[0])
      && xs[0] in next && xs[0] !in xs[1..]
      && Chain(next[xs[0]], next, xs[1..])
  }

  lemma {:induction false} ChainDistinct<T>(first: Option<T>, next: map<T, Option<T>>, xs: seq<T>)
    requires Chain(first, next, xs)
    ensures Distinct(xs)
    decreases |xs|
  {
    if xs != [] {
      ChainDistinct(next[xs[0]], next, xs[1..]);
    }
  }

  /** Setting the link of something outside the list leaves the list alone. */
  lemma {:induction false} ChainFrame<T>(first: Option<T>, next: map<T, Option<T>>, xs: seq<T>, x: T, link: Option<T>)
    requires Chain(first, next, xs) && x !in xs
    ensures Chain(first, next[x := link], xs)
    decreases |xs|
  {
    if xs != [] {
      ChainFrame(next[xs[0]], next, xs[1..], x, link);
    }
  }

  /** Making the predecessor of `x` skip over it removes `x` from the list. */
  lemma {:induction false} ChainUnlink<T>(first: Option<T>, next: map<T, Option<T>>, xs: seq<T>, cur: T, x: T)
    requires Chain(first, next, xs) && cur in xs && cur in next && next[cur] == Some(x) && x in next && xs[0] != x
    ensures Chain(first, next[cur := next[x]], Without(xs, x))
    decreases |xs|
  {
    if cur == xs[0] {
      assert xs[1..][0] == x && xs[1..][1..] == xs[2..];
      assert Without(xs, x) == [cur] + xs[2..];
      ChainFrame(next[x], next, xs[2..], cur, next[x]);
    } else {
      assert cur in xs[1..];
      if xs[1] == x {
        ChainPred(next[xs[0]], next, xs[1..], cur, x);
        assert false;
      }
      ChainUnlink(next[xs[0]], next, xs[1..], cur, x);
      ChainDistinct(next[xs[0]], next, xs[1..]);
      WithoutMembers(xs[1..], x);
      assert Without(xs, x)[1..] == Without(xs[1..], x);
    }
  }

  /** The first element has no predecessor in the list. */
  lemma {:induction false} ChainPred<T>(first: Option<T>, next: map<T, Option<T>>, xs: seq<T>, cur: T, x: T)
    requires Chain(first, next, xs) && cur in xs && cur in next && next[cur] == Some(x)
    ensures x in xs[1..]
    decreases |xs|
  {
    if cur == xs[0] {
      assert xs[1..][0] == x;
    } else {
      ChainPred(next[xs[0]], next, xs[1..], cur, x);
    }
  }

  /** `xs` ends with `ys`. */
  predicate Tail<T(==)>(xs: seq<T>, ys: seq<T>) {
    |ys| <= |xs| && xs[|xs| - |ys|..] == ys
  }

  /** Removing what is not in the tail leaves the tail. */
  lemma {:induction false} WithoutTail<T>(xs: seq<T>, x: T, ys: seq<T>)
    requires Tail(xs, ys) && x in xs && x !in ys
    ensures Tail(Without(xs, x), ys)
    decreases |xs|
  {
    assert xs[0..] == xs;
    assert xs[1..][|xs| - 1 - |ys|..] == ys;
    if xs[0] != x {
      WithoutTail(xs[1..], x, ys);
      var w := Without(xs[1..], x);
      assert ([xs[0]] + w)[|w| + 1 - |ys|..] == w[|w| - |ys|..];
    }
  }

  /** `xs` without the elements that are dropped. */
  function Kept<T>(xs: seq<T>, drop: T -> bool): seq<T> {
    if xs == [] then [] else (if drop(xs[0]) then [] else [xs[0]]) + Kept(xs[1..], drop)
  }

  lemma {:induction false} KeptAppend<T>(xs: seq<T>, x: T, drop: T -> bool)
    ensures Kept(xs + [x], drop) == Kept(xs, drop) + if drop(x) then [] else [x]
    decreases |xs|
  {
    if xs == [] {
      assert (xs + [x])[1..] == [];
    } else {
      assert (xs + [x])[1..] == xs[1..] + [x];
      KeptAppend(xs[1..], x, drop);
    }
  }

  /** An element right behind a prefix without it is the one that goes. */
  lemma {:induction false} WithoutBehind<T>(pre: seq<T>, x: T, post: seq<T>)
    requires x !in pre
    ensures Without(pre + [x] + post, x) == pre + post
    decreases |pre|
  {
    if pre == [] {
      assert pre + [x] + post == [x] + post;
    } else {
      assert (pre + [x] + post)[1..] == pre[1..] + [x] + post;
      WithoutBehind(pre[1..], x, post);
    }
  }

  /** Unlinking `x` by way of its predecessor leaves the link of `x` and all links behind it. */
  lemma {:induction false} ChainBehind<T>(next: map<T, Option<T>>, rest: seq<T>, cur: T, x: T)
    requires Chain(Some(x), next, rest) && cur in next && next[cur] == Some(x) && x in next
    ensures Chain(Some(x), next[cur := next[x]], rest)
  {
    if cur in rest {
      ChainPred(Some(x), next, rest, cur, x);
      assert false;
    }
    ChainFrame(Some(x), next, rest, cur, next[x]);
  }

  /** `struct SLIST_HEAD`, with the link field of every element that has been in the list. */
  class LinkedList<T(==, !new)> {
    var first: Option<T>
    var next: map<T, Option<T>>
    ghost var elems: seq<T>

    ghost predicate Valid()
      reads this
    {
      Chain(first, next, elems)
    }

    /**
     A walk stands at `cur`, with `rest` before it. The element it stands at may just have been removed;
     those behind it are the end of the list.
     */
    ghost predicate Cursor(cur: Option<T>, rest: seq<T>)
      reads this
    {
      Chain(cur, next, rest) && (rest != [] ==> Tail(elems, rest[1..]))
    }

    /** Going on from the link of the current element. */
    lemma Advance(x: T, rest: seq<T>)
      requires Cursor(Some(x), rest)
      ensures rest != [] && rest[0] == x && x in next && Cursor(next[x], rest[1..])
    {
      if rest[1..] != [] {
        assert rest[1..][1..] == elems[|elems| - |rest| + 2..];
      }
    }

    lemma Start()
      requires Valid()
      ensures Cursor(first, elems) && Distinct(elems)
    {
      ChainDistinct(first, next, elems);
    }

    /** `SLIST_INIT` */
    constructor ()
      ensures Valid() && elems == []
    {
      first := None;
      next := map[];
      elems := [];
    }

    /** `SLIST_EMPTY` */
    predicate IsEmpty()
      reads this
    {
      first == None
    }

    /** `SLIST_INSERT_HEAD` */
    method InsertHead(x: T)
      requires Valid() && x !in elems
      modifies this
      ensures Valid() && elems == [x] + old(elems)
    {
      ChainFrame(first, next, elems, x, first);
      next := next[x := first];
      first := Some(x);
      elems := [x] + elems;
    }

    /** `SLIST_FIRST` and `SLIST_REMOVE_HEAD` */
    method RemoveHead() returns (x: T)
      requires Valid() && elems != []
      modifies `first, `elems
      ensures Valid() && old(elems) == [x] + elems
    {
      x := first.value;
      first := next[x];
      elems := elems[1..];
    }

    /**
     `SLIST_REMOVE`: unlink the head, or walk to the predecessor and skip over `x`. The link field
     of the removed element keeps its value, so that a walk that stands at it can go on.
     */
    method Remove(x: T)
      requires Valid() && x in elems
      modifies this
      ensures Valid() && elems == Without(old(elems), x)
      ensures x in next && x in old(next) && next[x] == old(next)[x]
      ensures forall rest :: old(Cursor(Some(x), rest)) ==> Cursor(Some(x), rest)
    {
      ghost var was := elems;
      ChainDistinct(first, next, elems);
      if first == Some(x) {
        var _ := RemoveHead();
        assert was == [x] + elems;
      } else {
        var cur := Predecessor(x);
        ChainUnlink(first, next, elems, cur, x);
        forall rest | Chain(Some(x), next, rest)
          ensures Chain(Some(x), next[cur := next[x]], rest)
        {
          ChainBehind(next, rest, cur, x);
        }
        next := next[cur := next[x]];
        elems := Without(elems, x);
      }
      forall rest: seq<T> | old(Cursor(Some(x), rest))
        ensures Cursor(Some(x), rest)
      {
        WithoutTail(was, x, rest[1..]);
      }
    }

    /** The walk of `SLIST_REMOVE`. */
    method Predecessor(x: T) returns (cur: T)
      requires Valid() && x in elems && first != Some(x)
      ensures cur in elems && cur != x && cur in next && next[cur] == Some(x) && x in next
    {
      cur := first.value;
      ghost var rest := elems;
      while next[cur] != Some(x)
        invariant rest != [] && Chain(Some(cur), next, rest) && x in rest[1..] && cur in elems && cur != x
        invariant cur in next
        invariant forall y :: y in rest ==> y in elems
        decreases |rest|
      {
        cur := next[cur].value;
        rest := rest[1..];
      }
      assert rest[1..][0] == x;
    }

    /**
     A walk that removes any of the elements it visits, as the program's walks do: going on from the
     link of an element after it may have been removed visits the old list, and leaves what was kept.
     */
    method WalkDropping(drop: T -> bool) returns (visited: seq<T>)
      requires Valid()
      modifies this
      ensures Valid() && visited == old(elems) && elems == Kept(old(elems), drop)
    {
      Start();
      visited := [];
      var cur := first;
      ghost var rest := elems;
      ghost var kept: seq<T> := [];
      while cur.Some?
        invariant Valid() && Cursor(cur, rest) && old(elems) == visited + rest
        invariant elems == kept + rest && kept == Kept(visited, drop) && Distinct(elems)
        decreases |rest|
      {
        var x := cur.value;
        Advance(x, rest);
        DropOne(kept, visited, rest, drop);
        if drop(x) {
          Remove(x);
        } else {
          kept := kept + [x];
        }
        Advance(x, rest);
        visited := visited + [x];
        cur := next[x];
        rest := rest[1..];
      }
    }
  }

  /** One step of a walk that has kept `kept` of the elements `visited` and has `rest` before it. */
  lemma {:induction false} DropOne<T>(kept: seq<T>, visited: seq<T>, rest: seq<T>, drop: T -> bool)
    requires Distinct(kept + rest) && rest != [] && kept == Kept(visited, drop)
    ensures var x := rest[0];
      && Kept(visited + [x], drop) == (if drop(x) then kept else kept + [x])
      && Without(kept + rest, x) == kept + rest[1..] && Distinct(kept + rest[1..])
      && kept + [x] + rest[1..] == kept + rest && visited + [x] + rest[1..] == visited + rest
  {
    var x := rest[0];
    KeptAppend(visited, x, drop);
    NotBefore(kept, rest);
    assert rest == [x] + rest[1..];
    assert kept + rest == kept + [x] + rest[1..];
    WithoutBehind(kept, x, rest[1..]);
    WithoutMembers(kept + rest, x);
  }

  lemma {:induction false} NotBefore<T>(pre: seq<T>, rest: seq<T>)
    requires Distinct(pre + rest) && rest != []
    ensures rest[0] !in pre
    decreases |pre|
  {
    if pre != [] {
      assert (pre + rest)[0] == pre[0] && (pre + rest)[1..] == pre[1..] + rest;
      assert rest[0] in pre[1..] + rest;
      NotBefore(pre[1..], rest);
    }
  }
}
