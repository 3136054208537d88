/** Small datatypes and sequence facts shared by the other modules. */
module Prelude {

  datatype Option<+T> = None | Some(value: T)

  datatype Result<+T, +E> = Ok(value: T) | Err(error: E)

  function Max(a: int, b: int): int {
    if a < b then b else a
  }

  /** The concatenation of a sequence of sequences. */
  function Concat<T>(xss: seq<seq<T>>): (xs: seq<T>) {
    if xss == [] then [] else Concat(xss[..|xss| - 1]) + xss[|xss| - 1]
  }

  lemma {:induction false} ConcatAppend<T>(a: seq<seq<T>>, b: seq<seq<T>>)
    ensures Concat(a + b) == Concat(a) + Concat(b)
  {
    if b == [] {
      assert a + b == a;
    } else {
      var n := |b| - 1;
      var all := a + b;
      var m := |all| - 1;
      ConcatAppend(a, b[..n]);
      assert Concat(all) == Concat(all[..m]) + all[m];
      assert all[m] == b[n];
      assert all[..m] == a + b[..n];
      assert Concat(b) == Concat(b[..n]) + b[n];
    }
  }

  /** The least element of a finite set of ids. */
  function Least(s: set<int>): (m: int)
    requires s != {}
    ensures m in s && forall x :: x in s ==> m <= x
  {
    LeastExists(s);
    var m :| m in s && forall x :: x in s ==> m <= x;
    m
  }

  ghost function AnyOf<T>(s: set<T>): T
    requires s != {}
  {
    var x :| x in s; x
  }

  lemma {:induction false} LeastExists(s: set<int>)
    requires s != {}
    ensures exists m :: m in s && forall x :: x in s ==> m <= x
  {
    var x := AnyOf(s);
    if s == {x} {
      assert forall y :: y in s ==> x <= y;
    } else {
      var rest := s - {x};
      assert s == rest + {x};
      LeastExists(rest);
      var m :| m in rest && forall y :: y in rest ==> m <= y;
      var k := if m <= x then m else x;
      assert k in s && forall y :: y in s ==> k <= y;
    }
  }

  /** A finite set of ids in increasing order. */
  function Sorted(s: set<int>): (ids: seq<int>)
    ensures forall x :: x in ids <==> x in s
    ensures forall i, j :: 0 <= i < j < |ids| ==> ids[i] < ids[j]
  {
    if s == {} then [] else
      var m := Least(s);
      [m] + Sorted(s - {m})
  }
}
