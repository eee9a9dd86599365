/**
 * Python's ordering of strings (lexicographic by code point) and the sorted
 * list of catalogue keys that fills the language selector.
 */
module Ordering {

  /** `a` sorts strictly before `b`: first differing character smaller, or `a` a proper prefix of `b`. */
  predicate Less(a: string, b: string)
  {
    if |a| == 0 then |b| > 0
    else if |b| == 0 then false
    else if a[0] != b[0] then a[0] < b[0]
    else Less(a[1..], b[1..])
  }

  lemma {:induction false} LessIrreflexive(a: string)
    ensures !Less(a, a)
  {
    if |a| > 0 { LessIrreflexive(a[1..]); }
  }

  lemma {:induction false} LessTransitive(a: string, b: string, c: string)
    requires Less(a, b) && Less(b, c)
    ensures Less(a, c)
  {
    if |a| > 0 && a[0] == b[0] && b[0] == c[0] {
      LessTransitive(a[1..], b[1..], c[1..]);
    }
  }

  lemma {:induction false} LessTotal(a: string, b: string)
    requires a != b
    ensures Less(a, b) || Less(b, a)
  {
    if |a| > 0 && |b| > 0 && a[0] == b[0] {
      assert a == [a[0]] + a[1..] && b == [b[0]] + b[1..];
      LessTotal(a[1..], b[1..]);
    }
  }

  predicate StrictlySorted(s: seq<string>)
  {
    forall i, j :: 0 <= i < j < |s| ==> Less(s[i], s[j])
  }

  /** `x` put into its place in a sorted list. */
  function Insert(s: seq<string>, x: string): (r: seq<string>)
    ensures |r| == |s| + 1
    ensures forall y :: y in r <==> y == x || y in s
  {
    if s == [] then [x]
    else if Less(x, s[0]) then [x] + s
    else [s[0]] + Insert(s[1..], x)
  }

  lemma {:induction false} InsertSorted(s: seq<string>, x: string)
    requires StrictlySorted(s) && x !in s
    ensures StrictlySorted(Insert(s, x))
  {
    if s == [] {
    } else if Less(x, s[0]) {
      forall j | 0 < j < |s| ensures Less(x, s[j]) {
        LessTransitive(x, s[0], s[j]);
      }
    } else {
      LessTotal(x, s[0]);
      var tail := s[1..];
      InsertSorted(tail, x);
      var r := Insert(tail, x);
      forall j | 0 <= j < |r| ensures Less(s[0], r[j]) {
        if r[j] != x {
          assert r[j] in r && r[j] in tail;
          var k :| 0 <= k < |tail| && tail[k] == r[j];
          assert s[k + 1] == tail[k];
        }
      }
    }
  }

  /** The sorted list of a set of strings, as `sorted(d.keys())` gives it. */
  method SortedKeys(keys: set<string>) returns (items: seq<string>)
    ensures StrictlySorted(items)
    ensures forall k :: k in items <==> k in keys
    ensures |items| == |keys|
  {
    items := [];
    var remaining := keys;
    while remaining != {}
      invariant StrictlySorted(items)
      invariant remaining <= keys
      invariant forall k :: k in items <==> k in keys && k !in remaining
      invariant |items| + |remaining| == |keys|
      decreases remaining
    {
      var k :| k in remaining;
      InsertSorted(items, k);
      items := Insert(items, k);
      remaining := remaining - {k};
    }
  }

  /** A strictly sorted list is determined by its elements. */
  lemma {:induction false} SortedUnique(a: seq<string>, b: seq<string>)
    requires StrictlySorted(a) && StrictlySorted(b)
    requires forall x :: x in a <==> x in b
    ensures a == b
  {
    assert a != [] ==> a[0] in a;
    assert b != [] ==> b[0] in b;
    if a != [] && b != [] {
      assert a[0] in b;
      var k :| 0 <= k < |b| && b[k] == a[0];
      if k > 0 {
        assert b[0] in a;
        var m :| 0 <= m < |a| && a[m] == b[0];
        if m == 0 {
          LessIrreflexive(b[0]);
        } else {
          LessTransitive(b[0], b[k], b[0]);
          LessIrreflexive(b[0]);
        }
        assert false;
      }
      ElementsOfTail(a);
      ElementsOfTail(b);
      SortedUnique(a[1..], b[1..]);
    }
  }

  /** The tail of a strictly sorted list holds everything but the head. */
  lemma ElementsOfTail(s: seq<string>)
    requires StrictlySorted(s) && s != []
    ensures forall x :: x in s[1..] <==> x in s && x != s[0]
  {
    forall x | x in s[1..] ensures x != s[0] {
      var j :| 1 <= j < |s| && s[j] == x;
      LessIrreflexive(s[0]);
    }
    assert s == [s[0]] + s[1..];
  }
}
