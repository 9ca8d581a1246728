/** Accounts and reserves. Lower-case hexadecimal addresses of equal length sort as the numbers they spell. */
module Identifiers {
  type Address = nat
  type Asset = nat
}

/** Sorted sets of addresses. */
module Ordering {
  import opened Identifiers

  /** The set's elements in increasing order. */
  ghost function Sorted(s: set<Address>): (r: seq<Address>)
    ensures forall a :: a in r <==> a in s
    decreases s
  {
    if s == {} then []
    else
      var least := Least(s);
      [least] + Sorted(s - {least})
  }

  ghost function Least(s: set<Address>): (m: Address)
    requires s != {}
    ensures IsLeast(m, s)
  {
    LeastExists(s);
    var m :| IsLeast(m, s);
    m
  }

  predicate IsLeast(m: Address, s: set<Address>) {
    m in s && forall a :: a in s ==> m <= a
  }

  lemma {:induction false} LeastExists(s: set<Address>)
    requires s != {}
    ensures exists m :: IsLeast(m, s)
    decreases s
  {
    var x :| x in s;
    if s == {x} {
      assert IsLeast(x, s);
    } else {
      LeastExists(s - {x});
      var m :| IsLeast(m, s - {x});
      assert forall a :: a in s ==> a == x || a in s - {x};
      assert IsLeast(if m <= x then m else x, s);
    }
  }

  method TakeLeast(s: set<Address>) returns (m: Address)
    requires s != {}
    ensures IsLeast(m, s)
  {
    LeastExists(s);
    m :| m in s && IsLeast(m, s);
  }

  lemma SortedHead(s: set<Address>, a: Address)
    requires IsLeast(a, s)
    ensures Sorted(s) != [] && Sorted(s)[0] == a && Sorted(s)[1..] == Sorted(s - {a})
  {}

  lemma {:induction false} SortedIncreases(s: set<Address>)
    ensures forall i, j :: 0 <= i < j < |Sorted(s)| ==> Sorted(s)[i] < Sorted(s)[j]
    decreases s
  {
    if s != {} {
      var least := Least(s);
      SortedIncreases(s - {least});
      var rest := Sorted(s - {least});
      assert Sorted(s) == [least] + rest;
      assert forall i :: 0 <= i < |rest| ==> rest[i] in s - {least};
    }
  }

  lemma {:induction false} SortedLength(s: set<Address>)
    ensures |Sorted(s)| == |s|
    decreases s
  {
    if s != {} {
      SortedLength(s - {Least(s)});
    }
  }
}
