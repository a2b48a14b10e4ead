/** Counting and looking back in a history. */
module AuthHistory {
  function Count<T>(h: seq<T>, p: T -> bool): nat {
    if h == [] then 0 else Count(h[..|h| - 1], p) + (if p(h[|h| - 1]) then 1 else 0)
  }

  lemma CountSnoc<T>(h: seq<T>, e: T, p: T -> bool)
    ensures Count(h + [e], p) == Count(h, p) + (if p(e) then 1 else 0)
  {
    assert (h + [e])[..|h|] == h;
  }

  lemma {:induction false} CountMiss<T>(h: seq<T>, es: seq<T>, p: T -> bool)
    requires forall i :: 0 <= i < |es| ==> !p(es[i])
    ensures Count(h + es, p) == Count(h, p)
  {
    if es == [] {
      assert h + es == h;
    } else {
      var n := |es| - 1;
      CountMiss(h, es[..n], p);
      CountSnoc(h + es[..n], es[n], p);
      assert (h + es[..n]) + [es[n]] == h + es;
    }
  }

  /** Exactly one of the new entries counts. */
  lemma CountHit<T>(h: seq<T>, es: seq<T>, k: nat, p: T -> bool)
    requires k < |es| && p(es[k])
    requires forall i :: 0 <= i < |es| && i != k ==> !p(es[i])
    ensures Count(h + es, p) == Count(h, p) + 1
  {
    var before, after := es[..k], es[k + 1..];
    CountMiss(h, before, p);
    CountSnoc(h + before, es[k], p);
    CountMiss(h + before + [es[k]], after, p);
    assert h + before + [es[k]] + after == h + es;
  }
}
