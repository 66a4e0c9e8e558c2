/**
 The device gate over a whole run in which no connection closes: a connection
 attempt is judged by the addresses that tried before it, not by the order in
 which they happened to be let in.
 */
module GateHistory {
  import opened DeviceGate

  /** `registers` is false for the attempts that are checked but leave no trace (UDP under xray). */
  datatype Attempt = Attempt(ip: string, registers: bool)

  /** The addresses known after the attempts; `base` are those known from the start or from other nodes. */
  function Known(base: set<string>, attempts: seq<Attempt>, limit: int): set<string> {
    if attempts == [] then base
    else
      var n := |attempts| - 1;
      var known := Known(base, attempts[..n], limit);
      if attempts[n].registers && !Rejects(known, attempts[n].ip, limit) then known + {attempts[n].ip} else known
  }

  predicate Admitted(base: set<string>, attempts: seq<Attempt>, limit: int, i: nat)
    requires i < |attempts|
  {
    !Rejects(Known(base, attempts[..i], limit), attempts[i].ip, limit)
  }

  /** The addresses that tried to register, admitted or not. */
  function Tried(base: set<string>, attempts: seq<Attempt>): set<string> {
    base + set i | 0 <= i < |attempts| && attempts[i].registers :: attempts[i].ip
  }

  lemma TriedStep(base: set<string>, attempts: seq<Attempt>)
    requires attempts != []
    ensures var n := |attempts| - 1;
            Tried(base, attempts)
            == Tried(base, attempts[..n]) + if attempts[n].registers then {attempts[n].ip} else {}
  {
    var n := |attempts| - 1;
    assert forall i :: 0 <= i < n ==> attempts[..n][i] == attempts[i];
  }

  /** Below any address, the known ones are all that tried, or already enough to fill the limit. */
  lemma {:induction false} KnownFillsUp(base: set<string>, attempts: seq<Attempt>, limit: int, x: string)
    requires limit > 0
    ensures Known(base, attempts, limit) <= Tried(base, attempts)
    ensures var known := Known(base, attempts, limit);
            |Below(known, x)| >= limit || Below(known, x) == Below(Tried(base, attempts), x)
  {
    if attempts == [] {
      assert Tried(base, attempts) == base;
    } else {
      var n := |attempts| - 1;
      var before, z := attempts[..n], attempts[n].ip;
      var known, known', tried := Known(base, before, limit), Known(base, attempts, limit), Tried(base, before);
      KnownFillsUp(base, before, limit, x);
      TriedStep(base, attempts);
      SubsetCount(Below(known, x), Below(known', x));
      if attempts[n].registers && Rejects(known, z, limit) {
        if Less(z, x) {
          forall y | y in Below(known, z)
            ensures y in Below(known, x)
          {
            LessTransitive(y, z, x);
          }
          SubsetCount(Below(known, z), Below(known, x));
        } else {
          assert Below(tried + {z}, x) == Below(tried, x);
        }
      } else if attempts[n].registers {
        assert Below(known + {z}, x) == Below(known, x) + Below({z}, x);
        assert Below(tried + {z}, x) == Below(tried, x) + Below({z}, x);
      }
    }
  }

  /** So the gate may as well count everybody who tried. */
  lemma SameRank(base: set<string>, attempts: seq<Attempt>, limit: int, x: string)
    requires limit > 0
    ensures |Below(Known(base, attempts, limit), x)| < limit <==> |Below(Tried(base, attempts), x)| < limit
  {
    KnownFillsUp(base, attempts, limit, x);
    SubsetCount(Below(Known(base, attempts, limit), x), Below(Tried(base, attempts), x));
  }

  lemma {:induction false} KnownGrows(base: set<string>, attempts: seq<Attempt>, limit: int, i: nat, j: nat)
    requires i <= j <= |attempts|
    ensures Known(base, attempts[..i], limit) <= Known(base, attempts[..j], limit)
    decreases j
  {
    if i < j {
      assert attempts[..j][..j - 1] == attempts[..j - 1];
      KnownGrows(base, attempts, limit, i, j - 1);
    }
  }

  lemma {:induction false} TriedGrows(base: set<string>, attempts: seq<Attempt>, i: nat, j: nat)
    requires i <= j <= |attempts|
    ensures Tried(base, attempts[..i]) <= Tried(base, attempts[..j])
  {
    forall k | 0 <= k < i
      ensures attempts[..i][k] == attempts[..j][k]
    {
    }
  }

  /** The attempt that decided about the address of attempt i: its first registering one, or else i itself. */
  function Decider(attempts: seq<Attempt>, i: nat, k: nat): (f: nat)
    requires k <= i < |attempts|
    ensures k <= f <= i && attempts[f].ip == attempts[i].ip
    ensures forall m :: k <= m < f ==> !(attempts[m].registers && attempts[m].ip == attempts[i].ip)
    ensures f < i ==> attempts[f].registers
    decreases i - k
  {
    if k < i && !(attempts[k].registers && attempts[k].ip == attempts[i].ip) then Decider(attempts, i, k + 1) else k
  }

  /** Only registering attempts make an address known. */
  lemma {:induction false} KnownOnlyByRegistering(base: set<string>, attempts: seq<Attempt>, limit: int, x: string)
    requires x !in base
    requires forall m :: 0 <= m < |attempts| ==> !(attempts[m].registers && attempts[m].ip == x)
    ensures x !in Known(base, attempts, limit)
  {
    if attempts != [] {
      var n := |attempts| - 1;
      assert forall m :: 0 <= m < n ==> attempts[..n][m] == attempts[m];
      KnownOnlyByRegistering(base, attempts[..n], limit, x);
    }
  }

  /** The first registering attempt of an address settles its later attempts. */
  lemma FirstSettles(base: set<string>, attempts: seq<Attempt>, limit: int, f: nat, i: nat)
    requires limit > 0 && f < i < |attempts|
    requires attempts[f].registers && attempts[f].ip == attempts[i].ip
    ensures Admitted(base, attempts, limit, f) == Admitted(base, attempts, limit, i)
  {
    if Admitted(base, attempts, limit, f) {
      assert attempts[..f + 1][..f] == attempts[..f];
      KnownGrows(base, attempts, limit, f + 1, i);
    } else {
      StaysOut(base, attempts, limit, f, i);
    }
  }

  /**
   The history theorem. An attempt is let in just when fewer than `limit` smaller
   addresses had tried before the address's own first attempt: so it is decided
   once, the same way on every later attempt.
   */
  lemma History(base: set<string>, attempts: seq<Attempt>, limit: int, i: nat)
    requires limit > 0 && i < |attempts|
    ensures var f := Decider(attempts, i, 0);
            Admitted(base, attempts, limit, i)
            <==> attempts[i].ip in base || |Below(Tried(base, attempts[..f]), attempts[i].ip)| < limit
  {
    var f, x := Decider(attempts, i, 0), attempts[i].ip;
    KnownGrows(base, attempts, limit, 0, f);
    assert attempts[..0] == [];
    if x !in base {
      assert forall m :: 0 <= m < f ==> attempts[..f][m] == attempts[m];
      KnownOnlyByRegistering(base, attempts[..f], limit, x);
      SameRank(base, attempts[..f], limit, x);
    }
    if f < i {
      FirstSettles(base, attempts, limit, f, i);
    }
  }

  /** A rejected address is still rejected later. */
  lemma {:induction false} StaysOut(base: set<string>, attempts: seq<Attempt>, limit: int, f: nat, j: nat)
    requires limit > 0 && f < j <= |attempts|
    requires Rejects(Known(base, attempts[..f], limit), attempts[f].ip, limit)
    ensures Rejects(Known(base, attempts[..j], limit), attempts[f].ip, limit)
    decreases j
  {
    var x := attempts[f].ip;
    assert attempts[..j][..j - 1] == attempts[..j - 1];
    if f + 1 < j {
      StaysOut(base, attempts, limit, f, j - 1);
    }
    SubsetCount(Below(Known(base, attempts[..j - 1], limit), x), Below(Known(base, attempts[..j], limit), x));
  }

  /** Every repetition gets the answer of the first attempt. */
  lemma SameAnswer(base: set<string>, attempts: seq<Attempt>, limit: int, i: nat, j: nat)
    requires i < j < |attempts| && attempts[i].ip == attempts[j].ip && attempts[i].registers
    ensures Admitted(base, attempts, limit, i) == Admitted(base, attempts, limit, j)
  {
    if limit > 0 {
      History(base, attempts, limit, i);
      History(base, attempts, limit, j);
    }
  }

  /** The `limit` smallest addresses get in, whatever the order of arrival. */
  lemma SmallestAdmitted(base: set<string>, attempts: seq<Attempt>, limit: int, i: nat)
    requires i < |attempts|
    requires |Below(Tried(base, attempts), attempts[i].ip)| < limit
    ensures Admitted(base, attempts, limit, i)
  {
    var f := Decider(attempts, i, 0);
    History(base, attempts, limit, i);
    TriedGrows(base, attempts, f, |attempts|);
    assert attempts[..|attempts|] == attempts;
    SubsetCount(Below(Tried(base, attempts[..f]), attempts[i].ip), Below(Tried(base, attempts), attempts[i].ip));
  }

  /** A larger limit, or none, admits a superset. */
  lemma LargerLimitAdmitsMore(base: set<string>, attempts: seq<Attempt>, small: int, large: int, i: nat)
    requires i < |attempts| && 0 < small && (small <= large || large <= 0)
    requires Admitted(base, attempts, small, i)
    ensures Admitted(base, attempts, large, i)
  {
    History(base, attempts, small, i);
    if large > 0 {
      History(base, attempts, large, i);
    }
  }

  // ----- when the limit bounds the number of addresses -----

  lemma KnownKeepsBase(base: set<string>, attempts: seq<Attempt>, limit: int)
    ensures base <= Known(base, attempts, limit)
  {
    assert attempts[..0] == [] && attempts[..|attempts|] == attempts;
    KnownGrows(base, attempts, limit, 0, |attempts|);
  }

  /** An address that tried and stayed out has `limit` known smaller ones against it. */
  lemma {:induction false} TriedInVain(base: set<string>, attempts: seq<Attempt>, limit: int, x: string)
    requires limit > 0 && x in Tried(base, attempts) && x !in Known(base, attempts, limit)
    ensures |Below(Known(base, attempts, limit), x)| >= limit
  {
    if attempts != [] {
      var n := |attempts| - 1;
      var known := Known(base, attempts[..n], limit);
      TriedStep(base, attempts);
      if x in Tried(base, attempts[..n]) {
        TriedInVain(base, attempts[..n], limit, x);
        SubsetCount(Below(known, x), Below(Known(base, attempts, limit), x));
      }
    }
  }

  /** As long as no more than `limit` addresses have tried, all of them are in. */
  lemma EverybodyInWithinLimit(base: set<string>, attempts: seq<Attempt>, limit: int)
    requires limit > 0 && |Tried(base, attempts)| <= limit
    ensures Known(base, attempts, limit) == Tried(base, attempts)
  {
    var known, tried := Known(base, attempts, limit), Tried(base, attempts);
    KnownFillsUp(base, attempts, limit, "");
    forall x | x in tried
      ensures x in known
    {
      if x !in known {
        TriedInVain(base, attempts, limit, x);
        BelowStrictly(tried, known, x);
        assert false;
      }
    }
  }

  lemma BelowStrictly(tried: set<string>, known: set<string>, x: string)
    requires x in tried && known <= tried
    ensures |Below(known, x)| < |tried|
  {
    LessIrreflexive(x);
    SubsetCount(Below(known, x), tried - {x});
  }

  /** The addresses that have tried so far stand before every one that comes later. */
  ghost predicate Precede(base: set<string>, attempts: seq<Attempt>, m: nat)
    requires m <= |attempts|
  {
    forall x, f :: x in Tried(base, attempts) && x !in Tried(base, attempts[..m]) && f in Tried(base, attempts[..m]) ==> Less(f, x)
  }

  /** If the first `limit` addresses precede all later ones, nobody else gets in. */
  lemma {:induction false} FirstStayAlone(base: set<string>, attempts: seq<Attempt>, limit: int, m: nat)
    requires limit > 0 && m <= |attempts| && |Tried(base, attempts[..m])| == limit && Precede(base, attempts, m)
    ensures Known(base, attempts, limit) == Tried(base, attempts[..m])
  {
    if m == |attempts| {
      assert attempts[..m] == attempts;
      EverybodyInWithinLimit(base, attempts, limit);
    } else {
      var n := |attempts| - 1;
      var first := Tried(base, attempts[..m]);
      PrecedeBefore(base, attempts, m);
      FirstStayAlone(base, attempts[..n], limit, m);
      if attempts[n].registers && attempts[n].ip !in first {
        assert Below(first, attempts[n].ip) == first;
      }
    }
  }

  lemma PrecedeBefore(base: set<string>, attempts: seq<Attempt>, m: nat)
    requires m < |attempts| && Precede(base, attempts, m)
    ensures var n := |attempts| - 1;
            && attempts[..n][..m] == attempts[..m] && Precede(base, attempts[..n], m)
            && (attempts[n].registers && attempts[n].ip !in Tried(base, attempts[..m]) ==>
                  forall f :: f in Tried(base, attempts[..m]) ==> Less(f, attempts[n].ip))
  {
    assert attempts[..|attempts| - 1][..m] == attempts[..m];
    TriedStep(base, attempts);
  }

  /** If a later address precedes one of the first `limit`, the limit is exceeded. */
  lemma LaterOneGetsIn(base: set<string>, attempts: seq<Attempt>, limit: int, m: nat)
    requires limit > 0 && m <= |attempts| && |Tried(base, attempts[..m])| == limit && !Precede(base, attempts, m)
    ensures |Known(base, attempts, limit)| > limit
  {
    var first, known := Tried(base, attempts[..m]), Known(base, attempts, limit);
    var x, f :| x in Tried(base, attempts) && x !in first && f in first && !Less(f, x);
    assert attempts[..|attempts|] == attempts;
    EverybodyInWithinLimit(base, attempts[..m], limit);
    KnownGrows(base, attempts, limit, m, |attempts|);
    SubsetCount(first, known);
    if known == first {
      TriedInVain(base, attempts, limit, x);
      SubsetCount(Below(first, x), first - {f});
    }
  }

  /**
   The limit bounds the number of admitted addresses exactly if no more than that
   many ever tried, or if the first `limit` to arrive precede all later ones.
   */
  lemma LimitBoundsIff(base: set<string>, attempts: seq<Attempt>, limit: int)
    requires limit > 0
    ensures |Known(base, attempts, limit)| <= limit
            <==> || |Tried(base, attempts)| <= limit
                 || exists m: nat :: m <= |attempts| && |Tried(base, attempts[..m])| == limit && Precede(base, attempts, m)
  {
    if |Tried(base, attempts)| <= limit {
      EverybodyInWithinLimit(base, attempts, limit);
    } else if |base| > limit {
      KnownKeepsBase(base, attempts, limit);
      SubsetCount(base, Known(base, attempts, limit));
      forall m: nat | m <= |attempts|
        ensures |Tried(base, attempts[..m])| > limit
      {
        SubsetCount(base, Tried(base, attempts[..m]));
      }
    } else {
      var m := WhenFull(base, attempts, limit);
      BoundAtIff(base, attempts, limit, m);
      forall k: nat | k <= |attempts| && |Tried(base, attempts[..k])| == limit && Precede(base, attempts, k)
        ensures |Known(base, attempts, limit)| <= limit
      {
        BoundAtIff(base, attempts, limit, k);
      }
    }
  }

  lemma BoundAtIff(base: set<string>, attempts: seq<Attempt>, limit: int, m: nat)
    requires limit > 0 && m <= |attempts| && |Tried(base, attempts[..m])| == limit
    ensures |Known(base, attempts, limit)| <= limit <==> Precede(base, attempts, m)
  {
    if Precede(base, attempts, m) {
      FirstStayAlone(base, attempts, limit, m);
    } else {
      LaterOneGetsIn(base, attempts, limit, m);
    }
  }

  lemma NobodyTried(base: set<string>)
    ensures Tried(base, []) == base
  {
  }

  /** The moment at which `limit` addresses have tried. */
  lemma {:induction false} WhenFull(base: set<string>, attempts: seq<Attempt>, limit: int) returns (m: nat)
    requires |base| <= limit <= |Tried(base, attempts)|
    ensures m <= |attempts| && |Tried(base, attempts[..m])| == limit
  {
    assert attempts[..|attempts|] == attempts;
    if |Tried(base, attempts)| == limit {
      m := |attempts|;
    } else if attempts == [] {
      NobodyTried(base);
      assert false;
    } else {
      var before := attempts[..|attempts| - 1];
      TriedStep(base, attempts);
      m := WhenFull(base, before, limit);
      assert before[..m] == attempts[..m];
    }
  }

  /** So falling arrivals all get in. */
  lemma LimitCanBeExceeded()
    ensures var attempts := [Attempt("b", true), Attempt("a", true)];
            Admitted({}, attempts, 1, 0) && Admitted({}, attempts, 1, 1) && |Known({}, attempts, 1)| == 2
  {
    var attempts := [Attempt("b", true), Attempt("a", true)];
    assert attempts[..1] == [attempts[0]] && attempts[..1][..0] == [] && attempts[..0] == [];
    assert Known({}, attempts[..0], 1) == {};
    assert Below({}, "b") == {};
    assert Known({}, attempts[..1], 1) == {"b"};
    assert Below({"b"}, "a") == {};
    assert Known({}, attempts, 1) == {"a", "b"};
  }
}
