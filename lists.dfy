/**
 * The three list updates the store performs on its flat, insertion-ordered
 * collections: `filter`, the `map` that swaps in a new record by id, and the
 * count of elements passing a test (`filter(...).length`); and the plain
 * element-wise `map` that turns one list of records into another.
 */
module Lists {

  /** `xs.filter(keep)`. */
  function Filter<T>(xs: seq<T>, keep: T -> bool): (r: seq<T>)
    ensures |r| <= |xs|
    ensures forall i :: 0 <= i < |r| ==> keep(r[i])
  {
    if xs == [] then []
    else (if keep(xs[0]) then [xs[0]] else []) + Filter(xs[1..], keep)
  }

  /** The result holds exactly the elements that pass. */
  lemma {:induction false} FilterMembers<T>(xs: seq<T>, keep: T -> bool)
    ensures forall i :: 0 <= i < |Filter(xs, keep)| ==> Filter(xs, keep)[i] in xs
    ensures forall i :: 0 <= i < |xs| && keep(xs[i]) ==> xs[i] in Filter(xs, keep)
  {
    if xs != [] {
      FilterMembers(xs[1..], keep);
      var r := Filter(xs, keep);
      var t := Filter(xs[1..], keep);
      forall i | 0 <= i < |r| ensures r[i] in xs {
        if !(keep(xs[0]) && i == 0) {
          var j := if keep(xs[0]) then i - 1 else i;
          assert r[i] == t[j];
          assert t[j] in xs[1..];
        }
      }
    }
  }

  /** Filtering works piecewise, so it keeps the relative order of what it keeps. */
  lemma {:induction false} FilterConcat<T>(a: seq<T>, b: seq<T>, keep: T -> bool)
    ensures Filter(a + b, keep) == Filter(a, keep) + Filter(b, keep)
  {
    if a == [] {
      assert a + b == b;
    } else {
      assert (a + b)[1..] == a[1..] + b;
      FilterConcat(a[1..], b, keep);
    }
  }

  /** A list whose every element passes comes back unchanged. */
  lemma {:induction false} FilterKeepsAll<T>(xs: seq<T>, keep: T -> bool)
    requires forall i :: 0 <= i < |xs| ==> keep(xs[i])
    ensures Filter(xs, keep) == xs
  {
    if xs != [] {
      FilterKeepsAll(xs[1..], keep);
    }
  }

  /** A list of which no element passes filters to nothing. */
  lemma {:induction false} FilterNone<T>(xs: seq<T>, keep: T -> bool)
    requires forall i :: 0 <= i < |xs| ==> !keep(xs[i])
    ensures Filter(xs, keep) == []
  {
    if xs != [] {
      FilterNone(xs[1..], keep);
    }
  }

  /** A second pass with the same test removes nothing more. */
  lemma {:induction false} FilterIdempotent<T>(xs: seq<T>, keep: T -> bool)
    ensures Filter(Filter(xs, keep), keep) == Filter(xs, keep)
  {
    var r := Filter(xs, keep);
    FilterKeepsAll(r, keep);
  }

  /** The first element kept is the first element of `xs` that passes. */
  lemma {:induction false} FilterHead<T>(xs: seq<T>, keep: T -> bool, k: nat)
    requires k < |xs| && keep(xs[k])
    requires forall j :: 0 <= j < k ==> !keep(xs[j])
    ensures Filter(xs, keep) != [] && Filter(xs, keep)[0] == xs[k]
  {
    if k > 0 {
      FilterHead(xs[1..], keep, k - 1);
    }
  }

  /** `xs.filter(keep).length`. */
  function Count<T>(xs: seq<T>, keep: T -> bool): (n: nat)
    ensures n <= |xs|
    ensures n == |Filter(xs, keep)|
  {
    if xs == [] then 0 else (if keep(xs[0]) then 1 else 0) + Count(xs[1..], keep)
  }

  /** `xs.map(f)`. */
  function Map<A, B>(xs: seq<A>, f: A -> B): (r: seq<B>)
    ensures |r| == |xs|
  {
    if xs == [] then [] else [f(xs[0])] + Map(xs[1..], f)
  }

  /** Each element of the result is `f` of the element at the same position. */
  lemma {:induction false} MapAt<A, B>(xs: seq<A>, f: A -> B)
    ensures forall i :: 0 <= i < |xs| ==> Map(xs, f)[i] == f(xs[i])
  {
    if xs != [] {
      MapAt(xs[1..], f);
      forall i | 1 <= i < |xs| ensures Map(xs, f)[i] == f(xs[i]) {
        assert Map(xs, f)[i] == Map(xs[1..], f)[i - 1] && xs[i] == xs[1..][i - 1];
      }
    }
  }

  /** Mapping distributes over concatenation. */
  lemma {:induction false} MapConcat<A, B>(a: seq<A>, b: seq<A>, f: A -> B)
    ensures Map(a + b, f) == Map(a, f) + Map(b, f)
  {
    if a == [] {
      assert a + b == b;
    } else {
      MapConcat(a[1..], b, f);
      assert (a + b)[1..] == a[1..] + b;
    }
  }

  /** `xs.map(x => idOf(x) === idOf(p) ? p : x)`: every element with `p`'s id becomes `p`. */
  function ReplaceById<T>(xs: seq<T>, idOf: T -> string, p: T): (r: seq<T>)
    ensures |r| == |xs|
    ensures forall i :: 0 <= i < |xs| ==> r[i] == if idOf(xs[i]) == idOf(p) then p else xs[i]
  {
    if xs == [] then [] else [if idOf(xs[0]) == idOf(p) then p else xs[0]] + ReplaceById(xs[1..], idOf, p)
  }

  /** Replacing an id that no element carries changes nothing. */
  lemma ReplaceUnknownId<T>(xs: seq<T>, idOf: T -> string, p: T)
    requires forall i :: 0 <= i < |xs| ==> idOf(xs[i]) != idOf(p)
    ensures ReplaceById(xs, idOf, p) == xs
  {
  }

  /** Replacing twice with the same record is replacing once. */
  lemma ReplaceIdempotent<T>(xs: seq<T>, idOf: T -> string, p: T)
    ensures ReplaceById(ReplaceById(xs, idOf, p), idOf, p) == ReplaceById(xs, idOf, p)
  {
  }

  /** The test `x => idOf(x) !== id`. */
  function OtherId<T>(idOf: T -> string, id: string): T -> bool {
    x => idOf(x) != id
  }

  /** `xs.filter(x => idOf(x) !== id)`. */
  function RemoveById<T>(xs: seq<T>, idOf: T -> string, id: string): (r: seq<T>)
    ensures |r| <= |xs|
    ensures forall i :: 0 <= i < |r| ==> r[i] in xs && idOf(r[i]) != id
    ensures forall i :: 0 <= i < |xs| && idOf(xs[i]) != id ==> xs[i] in r
  {
    FilterMembers(xs, OtherId(idOf, id));
    Filter(xs, OtherId(idOf, id))
  }

  /** Removing an id that no element carries changes nothing. */
  lemma RemoveUnknownId<T>(xs: seq<T>, idOf: T -> string, id: string)
    requires forall i :: 0 <= i < |xs| ==> idOf(xs[i]) != id
    ensures RemoveById(xs, idOf, id) == xs
  {
    FilterKeepsAll(xs, OtherId(idOf, id));
  }

  /** Removal works piecewise, so the elements kept stay in their relative order. */
  lemma RemoveConcat<T>(a: seq<T>, b: seq<T>, idOf: T -> string, id: string)
    ensures RemoveById(a + b, idOf, id) == RemoveById(a, idOf, id) + RemoveById(b, idOf, id)
  {
    FilterConcat(a, b, OtherId(idOf, id));
  }

  /** Removing after a replacement by the same id is removing from the original list. */
  lemma {:induction false} RemoveAfterReplace<T>(xs: seq<T>, idOf: T -> string, p: T)
    ensures RemoveById(ReplaceById(xs, idOf, p), idOf, idOf(p)) == RemoveById(xs, idOf, idOf(p))
  {
    if xs != [] {
      var r := ReplaceById(xs, idOf, p);
      assert r[1..] == ReplaceById(xs[1..], idOf, p);
      RemoveAfterReplace(xs[1..], idOf, p);
    }
  }
}
