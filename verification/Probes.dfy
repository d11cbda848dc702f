/** The health endpoint: a loop over probers with an early return. */
module Probes {
  import opened Prelude

  /** A registered prober: nil, or a check that changes the state it runs in and may fail. */
  datatype Prober<!W> = Nil | Prober(health: W -> (W, Option<string>))

  /** What reaches the response writer. A response nobody writes to is sent as an empty 200. */
  datatype Response = Untouched | Written(status: int, body: string)

  /** The status that is sent. */
  function Sent(r: Response): int {
    match r
    case Untouched => 200
    case Written(status, _) => status
  }

  /** The state in which prober number i starts when all before it have run. */
  function Before<W>(ps: seq<Prober<W>>, w: W, i: nat): W
    requires i <= |ps|
  {
    if i == 0 then w
    else
      var u := Before(ps, w, i - 1);
      if ps[i - 1].Nil? then u else ps[i - 1].health(u).0
  }

  /** Seen from the first prober on: it runs in the given state, and the others in what it leaves. */
  lemma {:induction false} RunsInOrder<W>(ps: seq<Prober<W>>, w: W, i: nat)
    requires 0 < i <= |ps|
    ensures Before(ps, w, 0) == w
    ensures Before(ps, w, i) == Before(ps[1..], if ps[0].Nil? then w else ps[0].health(w).0, i - 1)
  {
    if i > 1 {
      RunsInOrder(ps, w, i - 1);
    }
  }

  predicate Passes<W>(ps: seq<Prober<W>>, w: W, i: nat)
    requires i < |ps|
  {
    ps[i].Prober? && ps[i].health(Before(ps, w, i)).1.None?
  }

  /** Where the program's answer differs from what it is for: a 200 means that every prober passes, unless
      the handler stops at a nil prober.

      The handler runs probers up to the first one that is nil or fails, and no further. All of them
      pass: 200. The first obstacle is a failure: 500 with that failure's text. The first obstacle is
      a nil prober: nothing is written, so the answer is an empty 200. */
  method HealthZ<W>(ps: seq<Prober<W>>, w: W) returns (w': W, r: Response, ghost stop: nat)
    ensures stop <= |ps| && forall i :: 0 <= i < stop ==> Passes(ps, w, i)
    ensures stop == |ps| ==> r == Written(200, "OK") && w' == Before(ps, w, stop)
    ensures stop < |ps| && ps[stop].Nil? ==> r == Untouched && w' == Before(ps, w, stop)
    ensures stop < |ps| && ps[stop].Prober? ==>
      && w' == Before(ps, w, stop + 1)
      && ps[stop].health(Before(ps, w, stop)).1.Some?
      && r == Written(500, ps[stop].health(Before(ps, w, stop)).1.value)
    ensures r == Written(200, "OK") <==> forall i :: 0 <= i < |ps| ==> Passes(ps, w, i)
    ensures (Sent(r) == 200 <==> forall i :: 0 <= i < |ps| ==> Passes(ps, w, i)) <==> !(stop < |ps| && ps[stop].Nil?)
  {
    w' := w;
    for i := 0 to |ps|
      invariant w' == Before(ps, w, i)
      invariant forall j :: 0 <= j < i ==> Passes(ps, w, j)
    {
      if ps[i].Nil? {
        assert !Passes(ps, w, i);
        return w', Untouched, i;
      }
      var (after, err) := ps[i].health(w');
      w' := after;
      if err.Some? {
        assert !Passes(ps, w, i);
        return w', Written(500, err.value), i;
      }
    }
    return w', Written(200, "OK"), |ps|;
  }

  /** A nil prober in front of any others: the status sent is 200, although not every prober passes and
      none of the others runs. */
  method NilProberSends200<W>(ps: seq<Prober<W>>, w: W) returns (w': W, r: Response)
    ensures w' == w && Sent(r) == 200 && !Passes([Nil] + ps, w, 0)
  {
    ghost var stop;
    assert !Passes([Nil] + ps, w, 0);
    w', r, stop := HealthZ([Nil] + ps, w);
    assert stop == 0;
  }
}
