/**
 * Decoded ways (way_prop) and the results of the per-way decoder get_way,
 * whose body is not part of this model: each call yields a record and says
 * whether the subtile filter rejected it.
 */
module WayRecord {
  import opened Wire

  /** A projected node coordinate in pixels. */
  datatype Point = Point(x: int, y: int)

  /** The first geometry block of a way and its tag ids. */
  datatype Way = Way(tagIds: seq<Byte>, coords: seq<Point>)

  /** What one get_way call leaves in its slot, and whether it returned "skip". */
  datatype WayDecode = WayDecode(way: Way, skipped: bool)

  /** The first n get_way results, the k-th call answering getWay(k). */
  function Calls(getWay: nat -> WayDecode, n: nat): seq<WayDecode>
  {
    seq(n, (k: int) requires 0 <= k => getWay(k))
  }

  /** The ways among ds that were not skipped, in decode order. */
  function Kept(ds: seq<WayDecode>): seq<Way>
    decreases |ds|
  {
    if ds == [] then []
    else Kept(ds[..|ds| - 1]) + (if ds[|ds| - 1].skipped then [] else [ds[|ds| - 1].way])
  }

  /** The number of skipped results among ds. */
  function Skips(ds: seq<WayDecode>): nat
    decreases |ds|
  {
    if ds == [] then 0
    else Skips(ds[..|ds| - 1]) + (if ds[|ds| - 1].skipped then 1 else 0)
  }

  /** Every decoded way is either kept or counted as skipped. */
  lemma {:induction false} KeptCount(ds: seq<WayDecode>)
    ensures |Kept(ds)| + Skips(ds) == |ds|
    decreases |ds|
  {
    if ds != [] {
      KeptCount(ds[..|ds| - 1]);
    }
  }

  /** A way is kept exactly when some unskipped result carries it. */
  lemma {:induction false} KeptMembers(ds: seq<WayDecode>, w: Way)
    ensures w in Kept(ds) <==> exists k :: 0 <= k < |ds| && !ds[k].skipped && ds[k].way == w
    decreases |ds|
  {
    if ds != [] {
      var init, last := ds[..|ds| - 1], ds[|ds| - 1];
      KeptMembers(init, w);
      assert Kept(ds) == Kept(init) + (if last.skipped then [] else [last.way]);
      if w in Kept(ds) {
        if w in Kept(init) {
          var k :| 0 <= k < |init| && !init[k].skipped && init[k].way == w;
          assert ds[k] == init[k];
        } else {
          assert !ds[|ds| - 1].skipped && ds[|ds| - 1].way == w;
        }
      }
      if exists k :: 0 <= k < |ds| && !ds[k].skipped && ds[k].way == w {
        var k :| 0 <= k < |ds| && !ds[k].skipped && ds[k].way == w;
        if k < |init| {
          assert init[k] == ds[k];
        }
      }
    }
  }

  /** Kept is compositional: the kept ways of a concatenation are the concatenation of the kept ways. */
  lemma {:induction false} KeptAppend(a: seq<WayDecode>, b: seq<WayDecode>)
    ensures Kept(a + b) == Kept(a) + Kept(b)
    decreases |b|
  {
    if b == [] {
      assert a + b == a;
    } else {
      var b' := b[..|b| - 1];
      assert (a + b)[..|a + b| - 1] == a + b';
      KeptAppend(a, b');
    }
  }

  /** With no skip, every decoded way is kept, in order. */
  lemma {:induction false} KeptWithoutSkips(ds: seq<WayDecode>)
    requires Skips(ds) == 0
    ensures |Kept(ds)| == |ds| && forall k :: 0 <= k < |ds| ==> Kept(ds)[k] == ds[k].way
    decreases |ds|
  {
    if ds != [] {
      KeptWithoutSkips(ds[..|ds| - 1]);
    }
  }
}
