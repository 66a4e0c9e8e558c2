/**
 The device-limit rule that both kernels implement: an address that is already
 known passes; a new one passes while fewer than `limit` known addresses precede
 it in string order.
 */
module DeviceGate {
  import opened Wrappers

  // ----- string order -----

  predicate Less(a: string, b: string) {
    if b == "" then false
    else if a == "" then true
    else a[0] < b[0] || (a[0] == b[0] && Less(a[1..], b[1..]))
  }

  lemma {:induction false} LessIrreflexive(a: string)
    ensures !Less(a, a)
  {
    if a != "" {
      LessIrreflexive(a[1..]);
    }
  }

  lemma {:induction false} LessTransitive(a: string, b: string, c: string)
    requires Less(a, b) && Less(b, c)
    ensures Less(a, c)
  {
    if a != "" && a[0] == b[0] == c[0] {
      LessTransitive(a[1..], b[1..], c[1..]);
    }
  }

  lemma {:induction false} LessTotal(a: string, b: string)
    ensures Less(a, b) || a == b || Less(b, a)
  {
    if a != "" && b != "" && a[0] == b[0] {
      LessTotal(a[1..], b[1..]);
      assert a == [a[0]] + a[1..] && b == [b[0]] + b[1..];
    }
  }

  /** Up to `k` both are equal; there the first one ends, or has the smaller character. */
  predicate Parts(a: string, b: string, k: nat) {
    && k <= |a| && k < |b| && a[..k] == b[..k]
    && (k < |a| ==> a[k] < b[k])
  }

  /** String order: at the first place where two addresses part, the earlier one is shorter or smaller. */
  lemma {:induction false} LessIff(a: string, b: string)
    ensures Less(a, b) <==> exists k: nat :: Parts(a, b, k)
  {
    if a == "" || b == "" {
      assert b != "" ==> Parts("", b, 0);
    } else {
      LessIff(a[1..], b[1..]);
      if k: nat :| Parts(a, b, k) {
        PartsTail(a, b, k);
      }
      if a[0] < b[0] {
        assert Parts(a, b, 0);
      }
      if k: nat :| a[0] == b[0] && Parts(a[1..], b[1..], k) {
        assert a[..k + 1] == [a[0]] + a[1..][..k] && b[..k + 1] == [b[0]] + b[1..][..k];
        assert Parts(a, b, k + 1);
      }
    }
  }

  lemma PartsTail(a: string, b: string, k: nat)
    requires a != "" && b != "" && Parts(a, b, k)
    ensures if k == 0 then a[0] < b[0] else a[0] == b[0] && Parts(a[1..], b[1..], k - 1)
  {
    if k > 0 {
      assert a[..k][0] == b[..k][0];
      assert a[1..][..k - 1] == a[..k][1..] && b[1..][..k - 1] == b[..k][1..];
    }
  }

  // ----- sorting (sort.Strings) -----

  predicate Sorted(s: seq<string>) {
    forall i, j :: 0 <= i < j < |s| ==> !Less(s[j], s[i])
  }

  function Insert(x: string, s: seq<string>): (r: seq<string>)
    ensures multiset(r) == multiset(s) + multiset{x}
  {
    if s == [] then [x]
    else if Less(s[0], x) then
      assert s == [s[0]] + s[1..];
      [s[0]] + Insert(x, s[1..])
    else [x] + s
  }

  function Sort(s: seq<string>): (r: seq<string>)
    ensures multiset(r) == multiset(s)
  {
    if s == [] then []
    else
      assert s == [s[0]] + s[1..];
      Insert(s[0], Sort(s[1..]))
  }

  lemma {:induction false} InsertSorted(x: string, s: seq<string>)
    requires Sorted(s)
    ensures Sorted(Insert(x, s))
  {
    if s == [] {
    } else if Less(s[0], x) {
      InsertSorted(x, s[1..]);
      var r := Insert(x, s[1..]);
      forall y | y in r
        ensures !Less(y, s[0])
      {
        assert y in multiset(r) && (y == x || y in multiset(s[1..]));
        if y == x && Less(x, s[0]) {
          LessTransitive(x, s[0], x);
          LessIrreflexive(x);
        }
      }
    } else {
      forall j | 0 <= j < |s|
        ensures !Less(s[j], x)
      {
        if Less(s[j], x) {
          LessTotal(s[0], x);
          if s[0] == x {
          } else {
            LessTransitive(s[j], x, s[0]);
          }
        }
      }
    }
  }

  lemma {:induction false} SortSorted(s: seq<string>)
    ensures Sorted(Sort(s))
  {
    if s != [] {
      SortSorted(s[1..]);
      InsertSorted(s[0], Sort(s[1..]));
    }
  }

  // ----- the rule -----

  function Below(s: set<string>, x: string): set<string> {
    set y | y in s && Less(y, x)
  }

  predicate Rejects(known: set<string>, x: string, limit: int) {
    limit > 0 && x !in known && |Below(known, x)| >= limit
  }

  lemma {:induction false} DistinctCount(s: seq<string>)
    requires Distinct(s)
    ensures |Elements(s)| == |s|
  {
    if s != [] {
      var n := |s| - 1;
      DistinctCount(s[..n]);
      assert Elements(s) == Elements(s[..n]) + {s[n]};
    }
  }

  /** In a sorted list without repetitions an element stands behind exactly the smaller ones. */
  lemma RankIsIndex(s: seq<string>, k: nat)
    requires Sorted(s) && Distinct(s) && k < |s|
    ensures |Below(Elements(s), s[k])| == k
  {
    forall y | y in s
      ensures Less(y, s[k]) <==> y in s[..k]
    {
      var j :| 0 <= j < |s| && s[j] == y;
      LessIrreflexive(s[k]);
      LessTotal(s[j], s[k]);
      if y in s[..k] {
        var i :| 0 <= i < k && s[..k][i] == y;
        assert s[i] == y;
      }
    }
    assert Below(Elements(s), s[k]) == Elements(s[..k]);
    DistinctCount(s[..k]);
  }

  /** Both gates end in this scan: is the address among the first `limit` of the sorted list? */
  method AmongFirst(ipList: seq<string>, x: string, limit: int) returns (found: bool)
    requires Distinct(ipList) && x in ipList && limit > 0
    ensures found == (|Below(Elements(ipList), x)| < limit)
  {
    var sorted := Sort(ipList);
    ghost var at := SortedPlace(ipList, x);
    var i := 0;
    while i < limit && i < |sorted|
      invariant 0 <= i <= |sorted| && i <= limit
      invariant forall j :: 0 <= j < i ==> sorted[j] != x
    {
      if sorted[i] == x {
        return true;
      }
      i := i + 1;
    }
    return false;
  }

  /** Where the address stands is how many precede it. */
  lemma SortedPlace(ipList: seq<string>, x: string) returns (at: nat)
    requires Distinct(ipList) && x in ipList
    ensures at < |Sort(ipList)| && Sort(ipList)[at] == x && Distinct(Sort(ipList))
    ensures |Below(Elements(ipList), x)| == at
  {
    var sorted := Sort(ipList);
    SortSorted(ipList);
    SortDistinct(ipList);
    at :| 0 <= at < |sorted| && sorted[at] == x;
    RankIsIndex(sorted, at);
  }

  lemma SortDistinct(s: seq<string>)
    requires Distinct(s)
    ensures Distinct(Sort(s)) && Elements(Sort(s)) == Elements(s)
    ensures forall x :: x in s <==> x in Sort(s)
  {
    forall x
      ensures x in s <==> x in Sort(s)
    {
      assert x in s <==> x in multiset(s);
      assert x in Sort(s) <==> x in multiset(Sort(s));
    }
    DistinctCount(s);
    assert Elements(Sort(s)) == Elements(s);
    assert |Sort(s)| == |multiset(Sort(s))| == |multiset(s)| == |s|;
    SameCountDistinct(Sort(s));
  }

  /** A list that has as many different elements as entries repeats none. */
  lemma {:induction false} SameCountDistinct(s: seq<string>)
    ensures |Elements(s)| <= |s|
    ensures |Elements(s)| == |s| ==> Distinct(s)
  {
    if s != [] {
      var n := |s| - 1;
      var init := s[..n];
      SameCountDistinct(init);
      assert Elements(s) == Elements(init) + {s[n]};
      if s[n] in Elements(init) {
        assert Elements(s) == Elements(init);
      } else if |Elements(s)| == |s| {
        assert forall i :: 0 <= i < n ==> s[i] == init[i] && init[i] in Elements(init);
      }
    }
  }

  lemma BelowAtMost(s: set<string>, x: string)
    ensures |Below(s, x)| <= |s|
  {
    SubsetCount(Below(s, x), s);
  }

  lemma {:induction false} SubsetCount<T>(a: set<T>, b: set<T>)
    requires a <= b
    ensures |a| <= |b|
    ensures |a| == |b| ==> a == b
    decreases |a|
  {
    if a != {} {
      var x :| x in a;
      SubsetCount(a - {x}, b - {x});
      assert a == a - {x} + {x} && b == b - {x} + {x};
    }
  }

  /** The rule does not depend on whether the newcomer itself is in the list. */
  lemma BelowWithout(s: set<string>, x: string)
    ensures Below(s + {x}, x) == Below(s, x)
  {
    LessIrreflexive(x);
  }
}
