/** The four quadrants of a QuadView camera frame and the four keep flags
    that choose which of them become output channels. */
module Quadrants {

  /** A quadrant, named after the emission band the optics image into it:
      Blue is top-left, Green bottom-left, Red top-right, FarRed bottom-right. */
  datatype Quadrant = Blue | Green | Red | FarRed

  /** The fixed order in which the processor, the display rule and the
      preview visit the quadrants: left column top to bottom, then the
      right column (not raster order). */
  const Order: seq<Quadrant> := [Blue, Green, Red, FarRed]

  /** Index of a quadrant in Order. */
  function Position(q: Quadrant): (i: nat)
    ensures i < |Order| && Order[i] == q
  {
    match q
    case Blue => 0
    case Green => 1
    case Red => 2
    case FarRed => 3
  }

  /** The four keep flags, in the positional order of the processor's constructor. */
  datatype Selection = Selection(keepBlue: bool, keepGreen: bool, keepRed: bool, keepFarRed: bool)

  function Keeps(sel: Selection, q: Quadrant): bool {
    match q
    case Blue => sel.keepBlue
    case Green => sel.keepGreen
    case Red => sel.keepRed
    case FarRed => sel.keepFarRed
  }

  /** The selection with the flag of q set to v. */
  function With(sel: Selection, q: Quadrant, v: bool): (r: Selection)
    ensures Keeps(r, q) == v
    ensures forall p :: p != q ==> Keeps(r, p) == Keeps(sel, p)
  {
    match q
    case Blue => sel.(keepBlue := v)
    case Green => sel.(keepGreen := v)
    case Red => sel.(keepRed := v)
    case FarRed => sel.(keepFarRed := v)
  }

  function Bit(b: bool): nat {
    if b then 1 else 0
  }

  /** Number of kept quadrants. */
  function KeptCount(sel: Selection): (n: nat)
    ensures n <= 4
    ensures n == 0 <==> forall q :: !Keeps(sel, q)
    ensures n == 4 <==> forall q :: Keeps(sel, q)
  {
    assert Keeps(sel, Blue) == sel.keepBlue && Keeps(sel, Green) == sel.keepGreen;
    assert Keeps(sel, Red) == sel.keepRed && Keeps(sel, FarRed) == sel.keepFarRed;
    Bit(sel.keepBlue) + Bit(sel.keepGreen) + Bit(sel.keepRed) + Bit(sel.keepFarRed)
  }

  /** Quadrants listed in strictly increasing Position. */
  ghost predicate Increasing(qs: seq<Quadrant>) {
    forall i, j :: 0 <= i < j < |qs| ==> Position(qs[i]) < Position(qs[j])
  }

  /** The kept quadrants of qs, in the order of qs. */
  function KeptAmong(sel: Selection, qs: seq<Quadrant>): seq<Quadrant>
    decreases |qs|
  {
    if qs == [] then []
    else if Keeps(sel, qs[0]) then [qs[0]] + KeptAmong(sel, qs[1..])
    else KeptAmong(sel, qs[1..])
  }

  /** KeptAmong keeps exactly the kept members of qs. */
  lemma {:induction false} KeptAmongMembers(sel: Selection, qs: seq<Quadrant>)
    ensures forall q :: q in KeptAmong(sel, qs) <==> q in qs && Keeps(sel, q)
    decreases |qs|
  {
    if qs != [] {
      KeptAmongMembers(sel, qs[1..]);
      assert qs == [qs[0]] + qs[1..];
    }
  }

  /** KeptAmong preserves the order of qs. */
  lemma {:induction false} KeptAmongIncreasing(sel: Selection, qs: seq<Quadrant>)
    requires Increasing(qs)
    ensures Increasing(KeptAmong(sel, qs))
    decreases |qs|
  {
    if qs != [] {
      var rest := KeptAmong(sel, qs[1..]);
      assert Increasing(qs[1..]);
      KeptAmongIncreasing(sel, qs[1..]);
      if Keeps(sel, qs[0]) {
        KeptAmongMembers(sel, qs[1..]);
        forall q | q in rest ensures Position(qs[0]) < Position(q) {
          var k :| 0 <= k < |qs[1..]| && qs[1..][k] == q;
          assert qs[k + 1] == q;
        }
        var r := [qs[0]] + rest;
        forall i, j | 0 <= i < j < |r| ensures Position(r[i]) < Position(r[j]) {
          if i == 0 {
            assert r[j] in rest;
          } else {
            assert r[i] == rest[i - 1] && r[j] == rest[j - 1];
          }
        }
      }
    }
  }

  function Pick(b: bool, q: Quadrant): (r: seq<Quadrant>)
    ensures |r| == Bit(b)
  {
    if b then [q] else []
  }

  /** KeptAmong over Order, written out quadrant by quadrant. */
  lemma KeptAmongOrder(sel: Selection)
    ensures KeptAmong(sel, Order) == Pick(sel.keepBlue, Blue) + Pick(sel.keepGreen, Green)
                                     + Pick(sel.keepRed, Red) + Pick(sel.keepFarRed, FarRed)
  {
  }

  /** Order lists every quadrant once, in increasing Position. */
  lemma OrderComplete()
    ensures forall q :: q in Order
    ensures Increasing(Order)
  {
    forall q ensures q in Order {
      assert Order[Position(q)] == q;
    }
  }

  /** Filtering Order by the keep flags yields KeptCount quadrants, exactly
      the kept ones, in increasing Position. */
  lemma KeptAmongOrderFacts(sel: Selection)
    ensures |KeptAmong(sel, Order)| == KeptCount(sel)
    ensures forall q :: q in KeptAmong(sel, Order) <==> Keeps(sel, q)
    ensures Increasing(KeptAmong(sel, Order))
  {
    KeptAmongOrder(sel);
    KeptAmongMembers(sel, Order);
    OrderComplete();
    KeptAmongIncreasing(sel, Order);
  }

  /** The kept quadrants in the fixed processing order. */
  function Kept(sel: Selection): (r: seq<Quadrant>)
    ensures |r| == KeptCount(sel)
    ensures forall q :: q in r <==> Keeps(sel, q)
    ensures Increasing(r)
  {
    KeptAmongOrderFacts(sel);
    KeptAmong(sel, Order)
  }
}
