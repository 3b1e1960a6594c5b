/**
  The delegate's listener list (`listners`, an `ArrayList<FrameListener>`):
  registration order is kept, the same listener may be registered twice,
  and removal takes out the first registration only.
 */
module Listeners {

  /** Identity of a registered `FrameListener` object. */
  type ListenerId = nat

  /** `addListener`'s list update: `ArrayList.add` appends. */
  function Add(ls: seq<ListenerId>, l: ListenerId): (r: seq<ListenerId>)
    ensures |r| == |ls| + 1 && r[..|ls|] == ls && r[|ls|] == l
    ensures multiset(r) == multiset(ls) + multiset{l}
  {
    ls + [l]
  }

  /** `removeListener`: `ArrayList.remove(Object)` deletes the first element
      equal to `l` and keeps the others in order; a listener that was never
      added leaves the list unchanged. */
  function Remove(ls: seq<ListenerId>, l: ListenerId): (r: seq<ListenerId>)
    ensures l !in ls ==> r == ls
    ensures l in ls ==> |r| == |ls| - 1
  {
    if |ls| == 0 then []
    else
      assert ls == [ls[0]] + ls[1..];
      if ls[0] == l then ls[1..]
      else [ls[0]] + Remove(ls[1..], l)
  }

  /** Removal takes out exactly one registration of `l`, if there is one, and
      no other listener. */
  lemma {:induction false} RemoveTakesOne(ls: seq<ListenerId>, l: ListenerId)
    ensures multiset(Remove(ls, l)) == multiset(ls) - multiset{l}
  {
    if |ls| > 0 {
      assert ls == [ls[0]] + ls[1..];
      if ls[0] != l {
        RemoveTakesOne(ls[1..], l);
      }
    }
  }

  /** Index `k` holds the first registration of `l`. */
  ghost predicate FirstAt(ls: seq<ListenerId>, l: ListenerId, k: nat)
  {
    k < |ls| && ls[k] == l && forall j :: 0 <= j < k ==> ls[j] != l
  }

  /** The registration `Remove` deletes is the first one. */
  lemma {:induction false} RemoveDeletesFirst(ls: seq<ListenerId>, l: ListenerId, k: nat)
    requires FirstAt(ls, l, k)
    ensures Remove(ls, l) == ls[..k] + ls[k + 1..]
  {
    if k == 0 {
      assert ls[..k] + ls[k + 1..] == ls[1..];
    } else {
      var t := ls[1..];
      assert FirstAt(t, l, k - 1);
      RemoveDeletesFirst(t, l, k - 1);
      assert ls[..k] == [ls[0]] + t[..k - 1];
      assert ls[k + 1..] == t[k..];
    }
  }

  /** Removing a listener right after adding it restores a list it was not in. */
  lemma {:induction false} RemoveUndoesAdd(ls: seq<ListenerId>, l: ListenerId)
    requires l !in ls
    ensures Remove(Add(ls, l), l) == ls
  {
    if |ls| == 0 {
    } else {
      assert Add(ls, l)[1..] == Add(ls[1..], l);
      RemoveUndoesAdd(ls[1..], l);
    }
  }

  /** When the listener was already registered, add-then-remove drops the
      OLDER registration: the list keeps its members but not its order. */
  lemma RemoveAfterAddDropsOlder(ls: seq<ListenerId>, l: ListenerId, k: nat)
    requires FirstAt(ls, l, k)
    ensures Remove(Add(ls, l), l) == ls[..k] + ls[k + 1..] + [l]
    ensures multiset(Remove(Add(ls, l), l)) == multiset(ls)
  {
    var added := Add(ls, l);
    assert added[..k] == ls[..k];
    assert added[k + 1..] == ls[k + 1..] + [l];
    RemoveDeletesFirst(added, l, k);
    RemoveTakesOne(added, l);
  }
}
