/** Small facts about finite sets that several modules use. */
module Sets {
  lemma Pick<T>(s: set<T>) returns (x: T)
    requires s != {}
    ensures x in s
  {
    x :| x in s;
  }

  lemma {:induction false} Within<T>(a: set<T>, b: set<T>)
    requires a <= b
    ensures |a| <= |b|
  {
    if a != {} {
      var x := Pick(a);
      Within(a - {x}, b - {x});
    }
  }

  lemma SameSize<T>(a: set<T>, b: set<T>)
    requires a <= b && |a| == |b|
    ensures a == b
  {
    if x :| x in b && x !in a { Within(a, b - {x}); }
  }

  // A number above all of a finite set: a fresh identifier.
  lemma {:induction false} UpperBound(x: set<nat>) returns (b: nat)
    ensures forall e :: e in x ==> e < b
  {
    if x == {} {
      b := 0;
    } else {
      var e := Pick(x);
      var c := UpperBound(x - {e});
      b := if e < c then c else e + 1;
      assert forall a :: a in x ==> a == e || a in x - {e};
    }
  }

  // Shifting a into b by a constant loses nothing.
  lemma {:induction false} ShiftInto(a: set<int>, b: set<int>, d: int)
    requires forall i :: i in a ==> i + d in b
    ensures |a| <= |b|
  {
    if a != {} {
      var x := Pick(a);
      ShiftInto(a - {x}, b - {x + d}, d);
    }
  }
}
