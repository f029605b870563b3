/** The part of a sequence that concerns one of those who share it. */
module Picks {
  import opened Options

  function Pick<X, Y>(q: seq<X>, f: X -> Option<Y>): seq<Y> {
    if q == [] then [] else (if f(q[0]).Some? then [f(q[0]).value] else []) + Pick(q[1..], f)
  }

  lemma PickCons<X, Y>(x: X, q: seq<X>, f: X -> Option<Y>)
    ensures Pick([x] + q, f) == (if f(x).Some? then [f(x).value] else []) + Pick(q, f)
  {
    assert ([x] + q)[1..] == q;
  }

  lemma {:induction false} PickConcat<X, Y>(q: seq<X>, r: seq<X>, f: X -> Option<Y>)
    ensures Pick(q + r, f) == Pick(q, f) + Pick(r, f)
  {
    hide Pick;
    if q == [] {
      assert q + r == r;
      PickNone<X, Y>(f);
    } else {
      PickConcat(q[1..], r, f);
      PickCons(q[0], q[1..], f);
      PickCons(q[0], q[1..] + r, f);
      assert q == [q[0]] + q[1..];
      assert q + r == [q[0]] + (q[1..] + r);
    }
  }

  lemma PickOne<X, Y>(x: X, f: X -> Option<Y>)
    ensures Pick([x], f) == if f(x).Some? then [f(x).value] else []
  {
  }

  lemma PickSnoc<X, Y>(q: seq<X>, x: X, f: X -> Option<Y>)
    ensures Pick(q + [x], f) == Pick(q, f) + (if f(x).Some? then [f(x).value] else [])
  {
    PickConcat(q, [x], f);
    PickOne(x, f);
  }

  lemma PickTail<X, Y>(q: seq<X>, f: X -> Option<Y>)
    requires q != []
    ensures f(q[0]).None? ==> Pick(q, f) == Pick(q[1..], f)
    ensures f(q[0]).Some? ==> Pick(q, f) != [] && Pick(q, f)[0] == f(q[0]).value && Pick(q, f)[1..] == Pick(q[1..], f)
  {
  }

  lemma PickNone<X, Y>(f: X -> Option<Y>)
    ensures Pick([], f) == []
  {
  }
}
