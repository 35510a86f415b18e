/** Choosing the lighthouse to head for: the comprehensions that list the
    bot's own other lighthouses, the filter that drops those already connected
    to the current one, and `min` by Manhattan distance. */
module Targets {
  import opened Opt
  import opened Board
  import opened Dict
  import opened Messages

  /** Positions of the lighthouses owned by `me` other than `cur`, in dictionary order. */
  function OwnOthers(d: Dict<Lighthouse>, me: int, cur: Pos): (r: seq<Pos>)
    requires DistinctKeys(d)
    ensures forall p :: p in r <==> p != cur && Get(d, p).Some? && Get(d, p).value.owner == me
    ensures InKeyOrder(d, r)
    ensures |r| <= |d|
  {
    if d == [] then []
    else
      var rest := OwnOthers(d[1..], me, cur);
      InKeyOrderTail(d, rest);
      GetEntry(d, 0);
      forall p | p != d[0].key ensures Get(d[1..], p) == Get(d, p) {
        GetTail(d, p);
      }
      if d[0].key != cur && d[0].value.owner == me then [d[0].key] + rest else rest
  }

  lemma GetTail<V>(d: Dict<V>, p: Pos)
    requires DistinctKeys(d) && d != [] && p != d[0].key
    ensures Get(d[1..], p) == Get(d, p)
  {
    var t := d[1..];
    if Get(t, p).Some? {
      var j :| 0 <= j < |t| && t[j] == Entry(p, Get(t, p).value);
      GetEntry(t, j);
      GetEntry(d, j + 1);
    }
  }

  /** Keeps, in their order, the positions whose lighthouse is not connected to `cur`. */
  function Unconnected(d: Dict<Lighthouse>, ps: seq<Pos>, cur: Pos): (r: seq<Pos>)
    requires forall p :: p in ps ==> Get(d, p).Some?
    ensures forall p :: p in r <==> p in ps && cur !in Get(d, p).value.connections
    ensures InKeyOrder(d, ps) ==> InKeyOrder(d, r)
    ensures |r| <= |ps|
  {
    if ps == [] then []
    else
      var rest := Unconnected(d, ps[1..], cur);
      assert InKeyOrder(d, ps) ==> InKeyOrder(d, ps[1..]);
      if cur !in Get(d, ps[0]).value.connections then
        assert InKeyOrder(d, ps) ==> InKeyOrder(d, [ps[0]] + rest) by {
          if InKeyOrder(d, ps) {
            InKeyOrderKeepHead(d, ps, rest);
          }
        }
        [ps[0]] + rest
      else rest
  }

  /** `min(ps, key=lambda p: manhattan(cur, p))`: a closest position, the first one on a tie. */
  function Nearest(ps: seq<Pos>, cur: Pos): (r: Pos)
    requires |ps| > 0
    ensures r in ps
    ensures forall q :: q in ps ==> Manhattan(cur, r) <= Manhattan(cur, q)
  {
    if |ps| == 1 then ps[0]
    else
      var rest := Nearest(ps[1..], cur);
      if Manhattan(cur, rest) < Manhattan(cur, ps[0]) then rest else ps[0]
  }

  /** No position before the one `Nearest` picks is as close: ties go to the earliest. */
  lemma {:induction false} NearestIsFirst(ps: seq<Pos>, cur: Pos) returns (i: nat)
    requires |ps| > 0
    ensures i < |ps| && ps[i] == Nearest(ps, cur)
    ensures forall j :: 0 <= j < i ==> Manhattan(cur, ps[j]) > Manhattan(cur, ps[i])
  {
    if |ps| == 1 {
      i := 0;
    } else {
      var rest := Nearest(ps[1..], cur);
      if Manhattan(cur, rest) < Manhattan(cur, ps[0]) {
        var i' := NearestIsFirst(ps[1..], cur);
        i := i' + 1;
      } else {
        i := 0;
      }
    }
  }

  // ---------------------------------------------------------------------------
  // The connection filter as written. `current_pos` is a Python tuple while a
  // lighthouse's `Connections` holds Position messages; `in` compares them with
  // `==`, and a tuple never equals a message, so no lighthouse is ever dropped.
  // ---------------------------------------------------------------------------

  /** The two kinds of Python value that meet in that membership test. */
  datatype PyValue = PyTuple(first: int, second: int) | PositionMessage(x: int, y: int)

  /** Python `==` on those values: values of different types are unequal. */
  predicate PyEquals(a: PyValue, b: PyValue)
  {
    match (a, b)
    case (PyTuple(a1, a2), PyTuple(b1, b2)) => a1 == b1 && a2 == b2
    case (PositionMessage(x1, y1), PositionMessage(x2, y2)) => x1 == x2 && y1 == y2
    case _ => false
  }

  /** Python `v in xs` on a list. */
  predicate PyIn(v: PyValue, xs: seq<PyValue>)
  {
    exists i :: 0 <= i < |xs| && PyEquals(xs[i], v)
  }

  function AsMessages(ps: seq<Pos>): (r: seq<PyValue>)
    ensures |r| == |ps|
    ensures forall i :: 0 <= i < |ps| ==> r[i] == PositionMessage(ps[i].x, ps[i].y)
  {
    if ps == [] then [] else [PositionMessage(ps[0].x, ps[0].y)] + AsMessages(ps[1..])
  }

  /** The filter exactly as written: keep `pos` unless the tuple of `cur` is in its `Connections`. */
  function UnconnectedAsWritten(d: Dict<Lighthouse>, ps: seq<Pos>, cur: Pos): seq<Pos>
    requires forall p :: p in ps ==> Get(d, p).Some?
  {
    if ps == [] then []
    else
      var rest := UnconnectedAsWritten(d, ps[1..], cur);
      if !PyIn(PyTuple(cur.x, cur.y), AsMessages(Get(d, ps[0]).value.connections)) then [ps[0]] + rest else rest
  }

  /** As written, the filter removes nothing. */
  lemma {:induction false} UnconnectedAsWrittenKeepsAll(d: Dict<Lighthouse>, ps: seq<Pos>, cur: Pos)
    requires forall p :: p in ps ==> Get(d, p).Some?
    ensures UnconnectedAsWritten(d, ps, cur) == ps
  {
    if ps != [] {
      UnconnectedAsWrittenKeepsAll(d, ps[1..], cur);
    }
  }

  /** A lighthouse at (3, 3), owned by player 1 and already connected to the
      bot's lighthouse at (0, 0), survives the filter as written; the intended
      filter drops it. */
  lemma ConnectionFilterCounterexample()
    ensures var d := [Entry(Pos(3, 3), Lighthouse(Pos(3, 3), 1, [Pos(0, 0)]))];
      UnconnectedAsWritten(d, [Pos(3, 3)], Pos(0, 0)) == [Pos(3, 3)]
      && Unconnected(d, [Pos(3, 3)], Pos(0, 0)) == []
  {
    var d := [Entry(Pos(3, 3), Lighthouse(Pos(3, 3), 1, [Pos(0, 0)]))];
    UnconnectedAsWrittenKeepsAll(d, [Pos(3, 3)], Pos(0, 0));
    assert Get(d, Pos(3, 3)).value.connections == [Pos(0, 0)];
  }
}
