module Wrappers {
  datatype Option<+T> = None | Some(value: T)
}

module Extremes {
  ghost function Pick<T>(s: set<T>): (x: T)
    requires s != {}
    ensures x in s
  {
    var x :| x in s; x
  }

  ghost predicate IsMax(m: int, s: set<int>) { m in s && forall k | k in s :: k <= m }

  ghost predicate IsMin(m: int, s: set<int>) { m in s && forall k | k in s :: m <= k }

  lemma {:induction false} MaxExists(s: set<int>)
    requires s != {}
    ensures exists m :: IsMax(m, s)
    decreases |s|
  {
    var x := Pick(s);
    var rest := s - {x};
    assert forall k | k in s :: k == x || k in rest;
    if rest == {} {
      assert IsMax(x, s);
    } else {
      MaxExists(rest);
      var m :| IsMax(m, rest);
      assert IsMax(if m < x then x else m, s);
    }
  }

  lemma {:induction false} MinExists(s: set<int>)
    requires s != {}
    ensures exists m :: IsMin(m, s)
    decreases |s|
  {
    var x := Pick(s);
    var rest := s - {x};
    assert forall k | k in s :: k == x || k in rest;
    if rest == {} {
      assert IsMin(x, s);
    } else {
      MinExists(rest);
      var m :| IsMin(m, rest);
      assert IsMin(if m < x then m else x, s);
    }
  }

  ghost function Max(s: set<int>): (m: int)
    requires s != {}
    ensures IsMax(m, s)
  {
    MaxExists(s);
    var m :| IsMax(m, s); m
  }

  ghost function Min(s: set<int>): (m: int)
    requires s != {}
    ensures IsMin(m, s)
  {
    MinExists(s);
    var m :| IsMin(m, s); m
  }
}

// Part of a list, in the list's own order.
module Picks {
  // Where in all the members of some stand.
  ghost predicate PickedAt<T>(all: seq<T>, some: seq<T>, at: seq<nat>) {
    && |at| == |some| && (forall k | 0 <= k < |at| :: at[k] < |all| && all[at[k]] == some[k])
    && forall j, k | 0 <= j < k < |at| :: at[j] < at[k]
  }

  // some is all, less the members that are not kept.
  ghost predicate Sifted<T(!new)>(all: seq<T>, some: seq<T>, kept: T -> bool) {
    exists at: seq<nat> ::
      PickedAt(all, some, at) && forall i: nat | i < |all| :: kept(all[i]) <==> i in at
  }

  lemma SiftedOn<T(!new)>(all: seq<T>, some: seq<T>, kept: T -> bool, x: T)
    requires Sifted(all, some, kept)
    ensures Sifted(all + [x], if kept(x) then some + [x] else some, kept)
  {
    var at: seq<nat> :| PickedAt(all, some, at) && forall i: nat | i < |all| :: kept(all[i]) <==> i in at;
    var more := if kept(x) then at + [|all|] else at;
    assert PickedAt(all + [x], if kept(x) then some + [x] else some, more);
    forall i: nat | i < |all + [x]| ensures kept((all + [x])[i]) <==> i in more {
      assert i < |all| ==> (all + [x])[i] == all[i];
      assert i == |all| ==> i !in at;
    }
  }

  lemma SiftedNone<T(!new)>(kept: T -> bool)
    ensures Sifted([], [], kept)
  {
    assert PickedAt<T>([], [], []);
  }
}
