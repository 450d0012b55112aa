/** Migration identifiers and their order, which is Go's order on strings. */
module Ids {

  /** A migration as loaded from its pair of files (internal/migrator/types.go). */
  datatype Migration = Migration(id: string, up: string, down: string)

  function MigrationIds(ms: seq<Migration>): (ids: seq<string>)
    ensures |ids| == |ms|
    ensures forall i :: 0 <= i < |ms| ==> ids[i] == ms[i].id
  {
    seq(|ms|, i requires 0 <= i < |ms| => ms[i].id)
  }

  /** Lexicographic order; an identifier is less than its own extensions. */
  predicate Less(a: string, b: string) {
    b != "" && (a == "" || a[0] < b[0] || (a[0] == b[0] && Less(a[1..], b[1..])))
  }

  lemma {:induction false} LessIrreflexive(a: string)
    ensures !Less(a, a)
  {
    if a != "" {
      LessIrreflexive(a[1..]);
    }
  }

  lemma {:induction false} LessTransitive(a: string, b: string, c: string)
    requires Less(a, b) && Less(b, c)
    ensures Less(a, c)
  {
    if a != "" && a[0] == b[0] == c[0] {
      LessTransitive(a[1..], b[1..], c[1..]);
    }
  }

  lemma {:induction false} LessTotal(a: string, b: string)
    ensures a == b || Less(a, b) || Less(b, a)
  {
    if a != "" && b != "" && a[0] == b[0] {
      LessTotal(a[1..], b[1..]);
      assert a[1..] == b[1..] ==> a == [a[0]] + a[1..] == b;
    }
  }

  lemma LessAsymmetric(a: string, b: string)
    requires Less(a, b)
    ensures !Less(b, a) && a != b
  {
    LessIrreflexive(a);
    if Less(b, a) {
      LessTransitive(a, b, a);
    }
  }

  /** The first character that differs decides, whatever comes before it, and after it. */
  lemma {:induction false} LessByFirstDifference(p: string, a: string, b: string)
    ensures a != "" && b != "" && a[0] != b[0] ==> (Less(p + a, p + b) <==> a[0] < b[0])
    ensures a == "" && b != "" ==> Less(p + a, p + b)
  {
    if p == "" {
      assert p + a == a && p + b == b;
    } else {
      assert (p + a)[1..] == p[1..] + a && (p + b)[1..] == p[1..] + b;
      LessByFirstDifference(p[1..], a, b);
    }
  }

  predicate Ascending(ids: seq<string>) {
    forall i, j :: 0 <= i < j < |ids| ==> Less(ids[i], ids[j])
  }

  lemma TailMembers(a: seq<string>, x: string)
    requires Ascending(a) && a != []
    ensures x in a[1..] <==> x in a && x != a[0]
  {
    LessIrreflexive(a[0]);
    if x in a && x != a[0] {
      var i :| 0 <= i < |a| && a[i] == x;
      assert a[1..][i - 1] == x;
    }
  }

  /** A strictly ascending sequence is determined by its elements. */
  lemma {:induction false} AscendingUnique(a: seq<string>, b: seq<string>)
    requires Ascending(a) && Ascending(b)
    requires forall x :: x in a <==> x in b
    ensures a == b
    decreases |a| + |b|, |b| > |a|
  {
    if |b| > |a| {
      AscendingUnique(b, a);
    } else if a != [] {
      assert a[0] in a;
      assert b[0] in b;
      if a[0] != b[0] {
        var i :| 0 <= i < |a| && a[i] == b[0];
        var j :| 0 <= j < |b| && b[j] == a[0];
        LessAsymmetric(a[0], b[0]);
        assert false;
      }
      forall x
        ensures x in a[1..] <==> x in b[1..]
      {
        TailMembers(a, x);
        TailMembers(b, x);
      }
      AscendingUnique(a[1..], b[1..]);
      assert a == [a[0]] + a[1..] && b == [b[0]] + b[1..];
    }
  }

  method Insert(sorted: seq<string>, x: string) returns (r: seq<string>)
    requires Ascending(sorted) && x !in sorted
    ensures Ascending(r)
    ensures forall y :: y in r <==> y == x || y in sorted
  {
    var i := 0;
    while i < |sorted| && Less(sorted[i], x)
      invariant 0 <= i <= |sorted|
      invariant forall k :: 0 <= k < i ==> Less(sorted[k], x)
    {
      i := i + 1;
    }
    r := sorted[..i] + [x] + sorted[i..];
    forall k | i <= k < |sorted|
      ensures Less(x, sorted[k])
    {
      LessTotal(x, sorted[i]);
      assert sorted[i] in sorted;
      if k > i {
        LessTransitive(x, sorted[i], sorted[k]);
      }
    }
  }

  /** slices.Sort over the keys of the two maps: every identifier once, in order. */
  method SortedIds(ids: set<string>) returns (sorted: seq<string>)
    ensures Ascending(sorted)
    ensures forall x :: x in sorted <==> x in ids
  {
    sorted := [];
    var left := ids;
    while left != {}
      invariant left <= ids && Ascending(sorted)
      invariant forall x :: x in sorted <==> x in ids - left
      decreases |left|
    {
      var x :| x in left;
      sorted := Insert(sorted, x);
      left := left - {x};
    }
  }
}
