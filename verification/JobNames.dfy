/**
 The names of MaintenanceJobs: `<maintenance>.<node>`, then `<maintenance>.<node>-2`, `-3`, ... with the
 counter in hexadecimal, and the probe loop that picks one of them against the informer cache.
 */
module JobNames {
  import opened Types

  // ---------------------------------------------------------------------- hexadecimal counters

  const DIGITS := "0123456789abcdef"

  function Hex(n: nat): (r: string)
    ensures r != []
  {
    if n < 16 then [DIGITS[n]] else Hex(n / 16) + [DIGITS[n % 16]]
  }

  function DigitValue(c: char): nat {
    if '0' <= c <= '9' then c as int - '0' as int
    else if 'a' <= c <= 'f' then c as int - 'a' as int + 10
    else 0
  }

  function HexValue(s: string): nat {
    if s == [] then 0 else 16 * HexValue(s[..|s| - 1]) + DigitValue(s[|s| - 1])
  }

  lemma DigitRoundTrip(d: nat)
    requires d < 16
    ensures DigitValue(DIGITS[d]) == d && DIGITS[d] != '.'
  {
  }

  /** Reading a counter back gives the counter, so the formatting is injective. */
  lemma {:induction false} HexRoundTrip(n: nat)
    ensures HexValue(Hex(n)) == n
  {
    var s := Hex(n);
    if n < 16 {
      DigitRoundTrip(n);
      assert s[..0] == [];
      assert HexValue(s) == 16 * HexValue(s[..0]) + DigitValue(s[0]);
    } else {
      DigitRoundTrip(n % 16);
      assert s[..|s| - 1] == Hex(n / 16) && s[|s| - 1] == DIGITS[n % 16];
      HexRoundTrip(n / 16);
    }
  }

  // ---------------------------------------------------------------------- names

  function BaseName(mt: string, node: string): string {
    mt + "." + node
  }

  /** The `i`-th candidate name, counting from one. */
  function Candidate(base: string, i: nat): string
    requires i >= 1
  {
    if i == 1 then base else base + "-" + Hex(i)
  }

  /** The candidates of one base name are pairwise distinct. */
  lemma CandidateInjective(base: string, i: nat, j: nat)
    requires 1 <= i && 1 <= j && Candidate(base, i) == Candidate(base, j)
    ensures i == j
  {
    if i > 1 && j > 1 {
      assert Candidate(base, i)[|base| + 1..] == Hex(i);
      assert Candidate(base, j)[|base| + 1..] == Hex(j);
      HexRoundTrip(i);
      HexRoundTrip(j);
    }
  }

  predicate NoDot(s: string) {
    forall i :: 0 <= i < |s| ==> s[i] != '.'
  }

  lemma {:induction false} HexNoDot(n: nat)
    ensures NoDot(Hex(n))
  {
    if n < 16 {
      DigitRoundTrip(n);
    } else {
      HexNoDot(n / 16);
      DigitRoundTrip(n % 16);
    }
  }

  /** What follows the dot in a candidate name. */
  function Tail(node: string, i: nat): string
    requires i >= 1
  {
    if i == 1 then node else node + "-" + Hex(i)
  }

  lemma CandidateSplits(mt: string, node: string, i: nat)
    requires i >= 1
    ensures Candidate(BaseName(mt, node), i) == mt + "." + Tail(node, i)
    ensures NoDot(node) ==> NoDot(Tail(node, i))
  {
    if i > 1 {
      HexNoDot(i);
      assert mt + "." + node + "-" + Hex(i) == mt + "." + (node + "-" + Hex(i));
    }
  }

  lemma LongerPrefixDotsTail(m: string, s: string, m': string, s': string)
    requires m + "." + s == m' + "." + s' && |m| < |m'|
    ensures !NoDot(s)
  {
    assert (m + "." + s)[|m'|] == (m' + "." + s')[|m'|] == '.';
    assert s[|m'| - |m| - 1] == '.';
  }

  lemma LastDotDecides(m: string, s: string, m': string, s': string)
    requires m + "." + s == m' + "." + s' && NoDot(s) && NoDot(s')
    ensures m == m'
  {
    if |m| < |m'| {
      LongerPrefixDotsTail(m, s, m', s');
    } else if |m'| < |m| {
      LongerPrefixDotsTail(m', s', m, s);
    } else {
      assert m == (m + "." + s)[..|m|] == (m' + "." + s')[..|m|] == m';
    }
  }

  /** With dot-free node names, jobs of different Maintenances never share a name, whatever their suffixes. */
  lemma NamesNeverShared(mt: string, node: string, i: nat, mt': string, node': string, j: nat)
    requires i >= 1 && j >= 1 && NoDot(node) && NoDot(node')
    requires Candidate(BaseName(mt, node), i) == Candidate(BaseName(mt', node'), j)
    ensures mt == mt'
  {
    CandidateSplits(mt, node, i);
    CandidateSplits(mt', node', j);
    LastDotDecides(mt, Tail(node, i), mt', Tail(node', j));
  }

  /** Kubernetes does allow dots in node names, and then two Maintenances can claim one job name. */
  lemma DottedNodesShareNames()
    ensures BaseName("a.b", "c") == BaseName("a", "b.c")
  {
    assert "a.b" + "." + "c" == "a.b.c" == "a" + "." + "b.c";
  }

  /** Two Maintenances claim one job name. */
  predicate SharedName(mt: string, node: string, i: nat, mt': string, node': string, j: nat) {
    && node != "" && node' != "" && i >= 1 && j >= 1
    && Candidate(BaseName(mt, node), i) == Candidate(BaseName(mt', node'), j)
  }

  /**
   If node names may contain dots, two Maintenances can claim one job name exactly when their names are
   equal or one of them, followed by a dot, is a prefix of the other.
   */
  lemma SharedNameIff(mt: string, mt': string)
    ensures (exists node, i: nat, node', j: nat :: SharedName(mt, node, i, mt', node', j))
       <==> mt == mt' || mt + "." <= mt' || mt' + "." <= mt
  {
    if mt == mt' {
      assert SharedName(mt, "a", 1, mt', "a", 1);
    }
    if mt + "." <= mt' {
      var node := SharedByPrefix(mt, mt');
      assert SharedName(mt, node, 1, mt', "a", 1);
    }
    if mt' + "." <= mt {
      var node := SharedByPrefix(mt', mt);
      assert SharedName(mt, "a", 1, mt', node, 1);
    }
    if node, i: nat, node', j: nat :| SharedName(mt, node, i, mt', node', j) {
      CandidateSplits(mt, node, i);
      CandidateSplits(mt', node', j);
      PrefixOfShared(mt, Tail(node, i), mt', Tail(node', j));
    }
  }

  lemma SharedByPrefix(mt: string, mt': string) returns (node: string)
    requires mt + "." <= mt'
    ensures node != "" && BaseName(mt, node) == BaseName(mt', "a")
  {
    node := mt'[|mt| + 1..] + "." + "a";
    assert mt' == mt'[..|mt| + 1] + mt'[|mt| + 1..] && mt'[..|mt| + 1] == mt + ".";
    assert mt + "." + node == mt' + "." + "a";
  }

  lemma PrefixOfShared(mt: string, s: string, mt': string, s': string)
    requires mt + "." + s == mt' + "." + s'
    ensures mt == mt' || mt + "." <= mt' || mt' + "." <= mt
  {
    var a, b := mt + "." + s, mt' + "." + s';
    if |mt| < |mt'| {
      assert mt'[..|mt| + 1] == b[..|mt| + 1] == a[..|mt| + 1] == mt + ".";
    } else if |mt'| < |mt| {
      assert mt[..|mt'| + 1] == a[..|mt'| + 1] == b[..|mt'| + 1] == mt' + ".";
    } else {
      assert mt == a[..|mt|] == b[..|mt|] == mt';
    }
  }

  // ---------------------------------------------------------------------- the probe loop

  const MAX_UINT64: nat := 0xFFFF_FFFF_FFFF_FFFF

  /** Either a job of the same machine was met, or a name was settled on. */
  datatype Probe = AlreadyThere(index: nat) | UseName(index: nat)

  /** The first `n` candidates are all taken. */
  ghost predicate Taken(cache: map<string, JobSpec>, base: string, n: nat) {
    forall i :: 1 <= i <= n ==> Candidate(base, i) in cache
  }

  ghost function Candidates(base: string, n: nat): (r: set<string>)
    ensures forall s :: s in r <==> exists i :: 1 <= i <= n && Candidate(base, i) == s
  {
    if n == 0 then {} else Candidates(base, n - 1) + {Candidate(base, n)}
  }

  lemma {:induction false} CandidatesCount(base: string, n: nat)
    ensures |Candidates(base, n)| == n
  {
    if n > 0 {
      CandidatesCount(base, n - 1);
      if Candidate(base, n) in Candidates(base, n - 1) {
        var i :| 1 <= i <= n - 1 && Candidate(base, i) == Candidate(base, n);
        CandidateInjective(base, i, n);
      }
    }
  }

  lemma SubsetSize<T>(a: set<T>, b: set<T>)
    requires a <= b
    ensures |a| <= |b|
  {
    if a != {} {
      var x :| x in a;
      SubsetSize(a - {x}, b - {x});
    }
  }

  /** Pigeonhole: a cache of that size cannot hold more candidates. */
  lemma TakenBound(cache: map<string, JobSpec>, base: string, n: nat)
    requires Taken(cache, base, n)
    ensures n <= |cache|
  {
    CandidatesCount(base, n);
    SubsetSize(Candidates(base, n), cache.Keys);
  }

  /** The index of the least candidate that is not in the cache, from `i` on. */
  ghost function FreeFrom(cache: map<string, JobSpec>, base: string, i: nat): (k: nat)
    requires i >= 1 && Taken(cache, base, i - 1)
    ensures k >= i && Taken(cache, base, k - 1) && Candidate(base, k) !in cache
    decreases |cache| + 1 - i
  {
    if Candidate(base, i) !in cache then i
    else
      TakenBound(cache, base, i);
      FreeFrom(cache, base, i + 1)
  }

  /** The least name of a job that is free in the cache. */
  ghost function FreeName(cache: map<string, JobSpec>, base: string): (name: string)
    ensures name !in cache
  {
    Candidate(base, FreeFrom(cache, base, 1))
  }

  lemma FreeNameIs(cache: map<string, JobSpec>, base: string, i: nat)
    requires i >= 1 && Taken(cache, base, i - 1) && Candidate(base, i) !in cache
    ensures FreeName(cache, base) == Candidate(base, i)
  {
    var k := FreeFrom(cache, base, 1);
    assert forall j :: 1 <= j <= k - 1 ==> Candidate(base, j) in cache;
    assert forall j :: 1 <= j <= i - 1 ==> Candidate(base, j) in cache;
  }

  /** The first `n` candidates are taken by jobs of other machines. */
  ghost predicate Passed(cache: map<string, JobSpec>, base: string, machineID: string, n: nat) {
    && Taken(cache, base, n)
    && forall i :: 1 <= i <= n ==> cache[Candidate(base, i)].machineID != machineID
  }

  /** A job of this machine is among the leading run of taken candidates. */
  ghost predicate InLeadingRun(cache: map<string, JobSpec>, base: string, machineID: string) {
    exists i {:trigger Taken(cache, base, i)} ::
      1 <= i && Taken(cache, base, i) && cache[Candidate(base, i)].machineID == machineID
  }

  /** What is known of `cache` is known of every `cache'` that has learnt more. */
  predicate Learns(cache: map<string, JobSpec>, cache': map<string, JobSpec>) {
    forall n :: n in cache ==> n in cache' && cache'[n] == cache[n]
  }

  lemma LeadingRunStays(cache: map<string, JobSpec>, cache': map<string, JobSpec>, base: string, machineID: string)
    requires Learns(cache, cache') && InLeadingRun(cache, base, machineID)
    ensures InLeadingRun(cache', base, machineID)
  {
    var i :| 1 <= i && Taken(cache, base, i) && cache[Candidate(base, i)].machineID == machineID;
    assert Taken(cache', base, i);
  }

  /**
   If the server has a job of the machine in its leading run, a lagging cache shows it or leads to a
   name the server has.
   */
  lemma LaggingProbe(cache: map<string, JobSpec>, server: map<string, JobSpec>, base: string, machineID: string)
    requires Learns(cache, server) && InLeadingRun(server, base, machineID) && !InLeadingRun(cache, base, machineID)
    ensures FreeName(cache, base) in server
  {
    var i :| 1 <= i && Taken(server, base, i) && server[Candidate(base, i)].machineID == machineID;
    var k := FreeFrom(cache, base, 1);
    if i < k {
      assert Taken(cache, base, i);
    }
  }

  lemma PassedThenFree(cache: map<string, JobSpec>, base: string, machineID: string, i: nat)
    requires i >= 1 && Passed(cache, base, machineID, i - 1) && Candidate(base, i) !in cache
    ensures !InLeadingRun(cache, base, machineID)
  {
    forall k | 1 <= k && Taken(cache, base, k) ensures cache[Candidate(base, k)].machineID != machineID {
      assert k < i;
    }
  }

  /**
   The probe loop.  It ends within one probe more than the cache has entries; it skips exactly when a
   job of this machine is among the leading run of taken candidates, and otherwise settles on the
   least candidate absent from the cache.
   */
  method ProbeName(cache: map<string, JobSpec>, base: string, machineID: string) returns (r: Probe, probes: nat)
    ensures probes <= |cache| + 1 && (r.UseName? ==> r.index >= 1)
    ensures |cache| < MAX_UINT64 - 1 ==> (r.AlreadyThere? <==> InLeadingRun(cache, base, machineID))
    ensures |cache| < MAX_UINT64 - 1 && r.UseName? ==>
              Candidate(base, r.index) !in cache && Passed(cache, base, machineID, r.index - 1)
  {
    var i := 1;
    probes := 0;
    r := UseName(1);
    while i < MAX_UINT64
      invariant 1 <= i <= MAX_UINT64
      invariant probes == i - 1 <= |cache| && r.UseName? && r.index >= 1
      invariant Passed(cache, base, machineID, i - 1)
    {
      probes := probes + 1;
      r := UseName(i);
      var name := Candidate(base, i);
      if name in cache {
        assert Taken(cache, base, i);
        TakenBound(cache, base, i);
        if cache[name].machineID == machineID {
          return AlreadyThere(i), probes;
        }
      } else {
        PassedThenFree(cache, base, machineID, i);
        return;
      }
      i := i + 1;
    }
  }
}
