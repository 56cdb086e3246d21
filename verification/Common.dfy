/** Small shared vocabulary. */
module Common {
  datatype Option<+T> = None | Some(value: T)

  function Min(a: int, b: int): int {
    if a < b then a else b
  }

  function Max(a: int, b: int): int {
    if a < b then b else a
  }

  // ---- Selections ----

  /** `some` are the elements of `all` at these positions, which are those of the wanted elements, in order. */
  ghost predicate PicksAt<T>(all: seq<T>, some: seq<T>, wanted: T -> bool, at: seq<nat>) {
    && |at| == |some|
    && (forall i, j :: 0 <= i < j < |at| ==> at[i] < at[j])
    && (forall i :: 0 <= i < |at| ==> at[i] < |all| && some[i] == all[at[i]])
    && (forall k :: 0 <= k < |all| ==> (wanted(all[k]) <==> k in at))
  }

  /** `some` are the wanted elements of `all`, each where it stands among them, and nothing else. */
  ghost predicate Picks<T>(all: seq<T>, some: seq<T>, wanted: T -> bool) {
    exists at: seq<nat> :: PicksAt(all, some, wanted, at)
  }

  lemma PicksNone<T>(wanted: T -> bool)
    ensures Picks([], [], wanted)
  {
    assert PicksAt([], [], wanted, []);
  }

  lemma TakesOneMore<T>(all: seq<T>, some: seq<T>, wanted: T -> bool, x: T, at: seq<nat>)
    requires PicksAt(all, some, wanted, at) && wanted(x)
    ensures PicksAt(all + [x], some + [x], wanted, at + [|all|])
  {
    var n, more, longer := |at|, at + [|all|], all + [x];
    forall i, j | 0 <= i < j < |more| ensures more[i] < more[j] {
      assert at[i] < |all|;
    }
    forall k | 0 <= k < |longer| ensures wanted(longer[k]) <==> k in more {
      if k < |all| {
        assert longer[k] == all[k] && (k in more <==> k in at);
      } else {
        assert more[n] == k;
      }
    }
  }

  lemma LeavesOneOut<T>(all: seq<T>, some: seq<T>, wanted: T -> bool, x: T, at: seq<nat>)
    requires PicksAt(all, some, wanted, at) && !wanted(x)
    ensures PicksAt(all + [x], some, wanted, at)
  {
    var longer := all + [x];
    forall k | 0 <= k < |longer| ensures wanted(longer[k]) <==> k in at {
      if k < |all| {
        assert longer[k] == all[k];
      } else {
        assert forall i :: 0 <= i < |at| ==> at[i] < k;
      }
    }
  }

  lemma PicksMore<T>(all: seq<T>, some: seq<T>, wanted: T -> bool, x: T)
    requires Picks(all, some, wanted)
    ensures Picks(all + [x], if wanted(x) then some + [x] else some, wanted)
  {
    var at: seq<nat> :| PicksAt(all, some, wanted, at);
    if wanted(x) {
      TakesOneMore(all, some, wanted, x, at);
    } else {
      LeavesOneOut(all, some, wanted, x, at);
    }
  }
}
