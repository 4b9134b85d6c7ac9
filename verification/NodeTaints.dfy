/**
 Draining and uncordoning: the taint edits of `drainNodes` and `uncordonNodes` on the list of nodes a
 stage selects.  A patch replaces one node's taints; any patch may fail, which ends the call with an
 error, and the stage runner calls again later.
 */
module NodeTaints {
  import opened Types

  const UNSCHEDULABLE := "node.kubernetes.io/unschedulable"
  const NO_SCHEDULE := "NoSchedule"

  datatype Taint = Taint(key: string, value: string, effect: string, timeAdded: Option<Time>)

  type Nodes = seq<seq<Taint>>

  /** The outcome of a call: the taints of every node afterwards, and whether it returned without error. */
  datatype Outcome = Outcome(nodes: Nodes, ok: bool)

  datatype Patch = Patch(now: Time, net: Net)

  function DrainTaint(now: Time): Taint {
    Taint(UNSCHEDULABLE, "", NO_SCHEDULE, Some(now))
  }

  predicate IsDrainTaint(t: Taint) {
    t.effect == NO_SCHEDULE && t.key == UNSCHEDULABLE && t.timeAdded.Some? && t.value == ""
  }

  predicate Drained(taints: seq<Taint>) {
    exists i :: 0 <= i < |taints| && IsDrainTaint(taints[i])
  }

  predicate HasKey(taints: seq<Taint>) {
    exists i :: 0 <= i < |taints| && taints[i].key == UNSCHEDULABLE
  }

  function Strip(taints: seq<Taint>): (r: seq<Taint>)
    ensures |r| <= |taints|
  {
    if taints == [] then []
    else
      var front, last := Strip(taints[..|taints| - 1]), taints[|taints| - 1];
      if last.key == UNSCHEDULABLE then front else front + [last]
  }

  /** `drainNodes` from node `i` on. */
  function DrainFrom(nodes: Nodes, patches: seq<Patch>, i: nat): (r: Outcome)
    requires i <= |nodes| == |patches|
    ensures |r.nodes| == |nodes|
    decreases |nodes| - i
  {
    if i == |nodes| then Outcome(nodes, true)
    else if Drained(nodes[i]) then DrainFrom(nodes, patches, i + 1)
    else
      var patched := nodes[i := nodes[i] + [DrainTaint(patches[i].now)]];
      match patches[i].net
      case Acked => DrainFrom(patched, patches, i + 1)
      case AckLost => Outcome(patched, false)
      case Refused => Outcome(nodes, false)
  }

  /** `uncordonNodes` from node `i` on; it returns at the first node that carries no such taint. */
  function UncordonFrom(nodes: Nodes, patches: seq<Patch>, i: nat): (r: Outcome)
    requires i <= |nodes| == |patches|
    ensures |r.nodes| == |nodes|
    decreases |nodes| - i
  {
    if i == |nodes| || |Strip(nodes[i])| == |nodes[i]| then Outcome(nodes, true)
    else
      var patched := nodes[i := Strip(nodes[i])];
      match patches[i].net
      case Acked => UncordonFrom(patched, patches, i + 1)
      case AckLost => Outcome(patched, false)
      case Refused => Outcome(nodes, false)
  }

  // ---------------------------------------------------------------------- the two loops

  method StripTaints(taints: seq<Taint>) returns (r: seq<Taint>)
    ensures r == Strip(taints)
  {
    r := [];
    for i := 0 to |taints|
      invariant r == Strip(taints[..i])
    {
      assert taints[..i + 1][..i] == taints[..i];
      if taints[i].key != UNSCHEDULABLE {
        r := r + [taints[i]];
      }
    }
    assert taints[..|taints|] == taints;
  }

  method HasDrainTaint(taints: seq<Taint>) returns (r: bool)
    ensures r == Drained(taints)
  {
    r := false;
    for i := 0 to |taints|
      invariant r == exists j :: 0 <= j < i && IsDrainTaint(taints[j])
    {
      if IsDrainTaint(taints[i]) {
        r := true;
      }
    }
  }

  class NodeApi {
    var nodes: Nodes

    constructor (nodes: Nodes)
      ensures this.nodes == nodes
    {
      this.nodes := nodes;
    }

    method PatchNode(i: nat, taints: seq<Taint>, net: Net) returns (ok: bool)
      requires i < |nodes|
      modifies this
      ensures nodes == (if net.Refused? then old(nodes) else old(nodes)[i := taints])
      ensures ok == net.Acked?
    {
      if !net.Refused? {
        nodes := nodes[i := taints];
      }
      ok := net.Acked?;
    }

    method DrainNodes(patches: seq<Patch>) returns (ok: bool)
      requires |patches| == |nodes|
      modifies this
      ensures Outcome(nodes, ok) == old(DrainFrom(nodes, patches, 0))
    {
      var i := 0;
      while i < |nodes|
        invariant 0 <= i <= |nodes| == |patches|
        invariant DrainFrom(nodes, patches, i) == old(DrainFrom(nodes, patches, 0))
      {
        var hasExpectedTaints := HasDrainTaint(nodes[i]);
        if !hasExpectedTaints {
          ok := PatchNode(i, nodes[i] + [DrainTaint(patches[i].now)], patches[i].net);
          if !ok {
            return;
          }
        }
        i := i + 1;
      }
      ok := true;
    }

    method UncordonNodes(patches: seq<Patch>) returns (ok: bool)
      requires |patches| == |nodes|
      modifies this
      ensures Outcome(nodes, ok) == old(UncordonFrom(nodes, patches, 0))
    {
      var i := 0;
      while i < |nodes|
        invariant 0 <= i <= |nodes| == |patches|
        invariant UncordonFrom(nodes, patches, i) == old(UncordonFrom(nodes, patches, 0))
      {
        var taints := StripTaints(nodes[i]);
        if |taints| == |nodes[i]| {
          return true;
        }
        ok := PatchNode(i, taints, patches[i].net);
        if !ok {
          return;
        }
        i := i + 1;
      }
      ok := true;
    }
  }

  // ---------------------------------------------------------------------- draining

  /** `after` is `before`, or `before` with one drain taint added where there was none. */
  ghost predicate AtMostOneAdded(before: seq<Taint>, after: seq<Taint>) {
    after == before || (!Drained(before) && exists t :: after == before + [DrainTaint(t)])
  }

  lemma AddedIsDrained(before: seq<Taint>, t: Time)
    ensures Drained(before + [DrainTaint(t)])
  {
    assert IsDrainTaint((before + [DrainTaint(t)])[|before|]);
  }

  lemma {:induction false} DrainAdds(nodes: Nodes, patches: seq<Patch>, i: nat)
    requires i <= |nodes| == |patches|
    ensures var r := DrainFrom(nodes, patches, i);
            && (forall j :: 0 <= j < i ==> r.nodes[j] == nodes[j])
            && (forall j :: i <= j < |nodes| ==> AtMostOneAdded(nodes[j], r.nodes[j]))
            && (r.ok ==> forall j :: i <= j < |nodes| ==> Drained(r.nodes[j]))
    decreases |nodes| - i
  {
    if i < |nodes| {
      AddedIsDrained(nodes[i], patches[i].now);
      var patched := nodes[i := nodes[i] + [DrainTaint(patches[i].now)]];
      DrainAdds(if Drained(nodes[i]) then nodes else patched, patches, i + 1);
    }
  }

  /** Any number of drain calls, each with its own failures. */
  function DrainAll(nodes: Nodes, calls: seq<seq<Patch>>): (r: Nodes)
    requires forall c :: 0 <= c < |calls| ==> |calls[c]| == |nodes|
    ensures |r| == |nodes|
  {
    if calls == [] then nodes
    else DrainFrom(DrainAll(nodes, calls[..|calls| - 1]), calls[|calls| - 1], 0).nodes
  }

  /**
   However often draining is retried and wherever each call fails, every node gains at most one drain
   taint, only if it had none, and none of its other taints changes.
   */
  lemma {:induction false} DrainAddsAtMostOne(nodes: Nodes, calls: seq<seq<Patch>>, j: nat)
    requires forall c :: 0 <= c < |calls| ==> |calls[c]| == |nodes|
    requires j < |nodes|
    ensures AtMostOneAdded(nodes[j], DrainAll(nodes, calls)[j])
  {
    if calls != [] {
      var mid := DrainAll(nodes, calls[..|calls| - 1]);
      DrainAddsAtMostOne(nodes, calls[..|calls| - 1], j);
      DrainAdds(mid, calls[|calls| - 1], 0);
      if mid[j] != nodes[j] {
        var t :| mid[j] == nodes[j] + [DrainTaint(t)];
        AddedIsDrained(nodes[j], t);
      }
    }
  }

  /** Once a call has succeeded all nodes are drained, and every further call succeeds and changes nothing. */
  lemma {:induction false} DrainedStaysDrained(nodes: Nodes, patches: seq<Patch>, i: nat)
    requires i <= |nodes| == |patches|
    requires forall j :: i <= j < |nodes| ==> Drained(nodes[j])
    ensures DrainFrom(nodes, patches, i) == Outcome(nodes, true)
    decreases |nodes| - i
  {
    if i < |nodes| {
      DrainedStaysDrained(nodes, patches, i + 1);
    }
  }

  lemma DrainIdempotent(nodes: Nodes, first: seq<Patch>, again: seq<Patch>)
    requires |first| == |nodes| == |again|
    requires DrainFrom(nodes, first, 0).ok
    ensures DrainFrom(DrainFrom(nodes, first, 0).nodes, again, 0) == DrainFrom(nodes, first, 0)
  {
    DrainAdds(nodes, first, 0);
    DrainedStaysDrained(DrainFrom(nodes, first, 0).nodes, again, 0);
  }

  predicate AllAcked(patches: seq<Patch>) {
    forall i :: 0 <= i < |patches| ==> patches[i].net == Acked
  }

  /** Some taint has the unschedulable key, no value, effect NoSchedule, and says when it was added. */
  lemma DrainedIff(taints: seq<Taint>)
    ensures Drained(taints) <==>
              exists i :: 0 <= i < |taints| && taints[i].key == "node.kubernetes.io/unschedulable"
                && taints[i].value == "" && taints[i].effect == "NoSchedule" && taints[i].timeAdded.Some?
  {
  }

  /** After a successful drain call every listed node has such a taint, whatever it had before. */
  lemma DrainSucceedsOnAll(nodes: Nodes, patches: seq<Patch>, j: nat)
    requires |patches| == |nodes| && j < |nodes| && DrainFrom(nodes, patches, 0).ok
    ensures var taints := DrainFrom(nodes, patches, 0).nodes[j];
            exists i :: 0 <= i < |taints| && taints[i].key == "node.kubernetes.io/unschedulable"
              && taints[i].value == "" && taints[i].effect == "NoSchedule" && taints[i].timeAdded.Some?
  {
    DrainAdds(nodes, patches, 0);
    DrainedIff(DrainFrom(nodes, patches, 0).nodes[j]);
  }

  lemma {:induction false} DrainExact(nodes: Nodes, patches: seq<Patch>, i: nat)
    requires i <= |nodes| == |patches| && AllAcked(patches)
    ensures var r := DrainFrom(nodes, patches, i);
            && r.ok
            && (forall j :: 0 <= j < i ==> r.nodes[j] == nodes[j])
            && (forall j :: i <= j < |nodes| ==>
                  r.nodes[j] == if Drained(nodes[j]) then nodes[j] else nodes[j] + [DrainTaint(patches[j].now)])
    decreases |nodes| - i
  {
    if i < |nodes| {
      var patched := nodes[i := nodes[i] + [DrainTaint(patches[i].now)]];
      DrainExact(if Drained(nodes[i]) then nodes else patched, patches, i + 1);
    }
  }

  /**
   A drain call with no failing patch succeeds and appends that taint, dated by its clock, to a node if and
   only if no taint of the node had all four: key, empty value, effect, and a time added.
   */
  lemma DrainAppendsIff(nodes: Nodes, patches: seq<Patch>, j: nat)
    requires |patches| == |nodes| && AllAcked(patches) && j < |nodes|
    ensures var r := DrainFrom(nodes, patches, 0);
            r.ok && r.nodes[j] ==
              if exists i :: 0 <= i < |nodes[j]| && nodes[j][i].key == "node.kubernetes.io/unschedulable"
                   && nodes[j][i].value == "" && nodes[j][i].effect == "NoSchedule" && nodes[j][i].timeAdded.Some?
              then nodes[j]
              else nodes[j] + [Taint("node.kubernetes.io/unschedulable", "", "NoSchedule", Some(patches[j].now))]
  {
    DrainExact(nodes, patches, 0);
    DrainedIff(nodes[j]);
  }

  /** A drain call fails exactly if the patch of some node that needs one fails. */
  lemma {:induction false} DrainFailsIff(nodes: Nodes, patches: seq<Patch>, i: nat)
    requires i <= |nodes| == |patches|
    ensures !DrainFrom(nodes, patches, i).ok <==>
              exists j :: i <= j < |nodes| && !Drained(nodes[j]) && patches[j].net != Acked
    decreases |nodes| - i
  {
    if i < |nodes| {
      var patched := nodes[i := nodes[i] + [DrainTaint(patches[i].now)]];
      DrainFailsIff(if Drained(nodes[i]) then nodes else patched, patches, i + 1);
      assert forall j :: i < j < |nodes| ==> patched[j] == nodes[j];
    }
  }

  // ---------------------------------------------------------------------- uncordoning

  lemma StripOne(t: Taint)
    ensures Strip([t]) == if t.key == "node.kubernetes.io/unschedulable" then [] else [t]
  {
    assert [t][..0] == [];
  }

  /** With `StripOne`: stripping keeps, in order, exactly the taints of other keys. */
  lemma {:induction false} StripConcat(a: seq<Taint>, b: seq<Taint>)
    ensures Strip(a + b) == Strip(a) + Strip(b)
  {
    if b == [] {
      assert a + b == a;
    } else {
      var n, ab := |b| - 1, a + b;
      assert ab[..|ab| - 1] == a + b[..n] && ab[|ab| - 1] == b[n];
      StripConcat(a, b[..n]);
      assert Strip(b) == Strip(b[..n]) + (if b[n].key == UNSCHEDULABLE then [] else [b[n]]);
      assert Strip(ab) == Strip(a + b[..n]) + (if b[n].key == UNSCHEDULABLE then [] else [b[n]]);
    }
  }

  lemma HasKeySnoc(taints: seq<Taint>, t: Taint)
    ensures HasKey(taints + [t]) <==> HasKey(taints) || t.key == UNSCHEDULABLE
  {
    var all := taints + [t];
    if HasKey(taints) {
      var i :| 0 <= i < |taints| && taints[i].key == UNSCHEDULABLE;
      assert all[i].key == UNSCHEDULABLE;
    }
    assert all[|taints|] == t;
  }

  lemma {:induction false} StripShrinksIff(taints: seq<Taint>)
    ensures |Strip(taints)| == |taints| <==> !HasKey(taints)
    ensures !HasKey(taints) ==> Strip(taints) == taints
    ensures !HasKey(Strip(taints))
  {
    if taints != [] {
      var n := |taints| - 1;
      assert taints == taints[..n] + [taints[n]];
      StripShrinksIff(taints[..n]);
      HasKeySnoc(taints[..n], taints[n]);
      HasKeySnoc(Strip(taints[..n]), taints[n]);
    }
  }

  /** No node without the taint stands before a node with it, from `i` on. */
  predicate TaintedFirst(nodes: Nodes, i: nat) {
    forall j, k :: i <= j < k < |nodes| && HasKey(nodes[k]) ==> HasKey(nodes[j])
  }

  lemma {:induction false} UncordonEffect(nodes: Nodes, patches: seq<Patch>, i: nat)
    requires i <= |nodes| == |patches| && AllAcked(patches)
    ensures var r := UncordonFrom(nodes, patches, i);
            && r.ok
            && (forall j :: 0 <= j < i ==> r.nodes[j] == nodes[j])
            && (forall j :: i <= j < |nodes| ==> r.nodes[j] == nodes[j] || r.nodes[j] == Strip(nodes[j]))
            && ((forall j :: i <= j < |nodes| ==> r.nodes[j] == Strip(nodes[j])) <==> TaintedFirst(nodes, i))
    decreases |nodes| - i
  {
    if i < |nodes| {
      StripShrinksIff(nodes[i]);
      if HasKey(nodes[i]) {
        var patched := nodes[i := Strip(nodes[i])];
        UncordonEffect(patched, patches, i + 1);
        assert forall j :: i < j < |nodes| ==> patched[j] == nodes[j];
        assert TaintedFirst(patched, i + 1) <==> TaintedFirst(nodes, i + 1);
        assert TaintedFirst(nodes, i + 1) <==> TaintedFirst(nodes, i);
      } else {
        forall j | i <= j < |nodes| ensures nodes[j] == Strip(nodes[j]) <==> !HasKey(nodes[j]) {
          StripShrinksIff(nodes[j]);
        }
      }
    }
  }

  /**
   A call with no failing patch removes the taint from every node if and only if no node without it
   is listed before a node with it; the call reports success either way.
   */
  lemma UncordonCleansIff(nodes: Nodes, patches: seq<Patch>)
    requires |nodes| == |patches| && AllAcked(patches)
    ensures UncordonFrom(nodes, patches, 0).ok
    ensures (forall j :: 0 <= j < |nodes| ==> !HasKey(UncordonFrom(nodes, patches, 0).nodes[j]))
       <==> TaintedFirst(nodes, 0)
  {
    UncordonEffect(nodes, patches, 0);
    var r := UncordonFrom(nodes, patches, 0).nodes;
    forall j | 0 <= j < |nodes| ensures !HasKey(r[j]) <==> r[j] == Strip(nodes[j]) {
      StripShrinksIff(nodes[j]);
    }
  }

  /**
   So a retry after a partial failure does not finish the work: once the first node is clean, the call
   reports success at once and leaves every other node as it is.
   */
  lemma UncordonRetryStops(nodes: Nodes, patches: seq<Patch>)
    requires nodes != [] && |nodes| == |patches| && !HasKey(nodes[0])
    ensures UncordonFrom(nodes, patches, 0) == Outcome(nodes, true)
  {
    StripShrinksIff(nodes[0]);
  }

  lemma DrainedHasKey(taints: seq<Taint>)
    requires Drained(taints)
    ensures HasKey(taints)
  {
  }

  lemma StripDropsAdded(before: seq<Taint>, after: seq<Taint>)
    requires AtMostOneAdded(before, after)
    ensures Strip(after) == Strip(before)
  {
    if after != before {
      var t :| after == before + [DrainTaint(t)];
      assert after[..|after| - 1] == before;
    }
  }

  /**
   Draining and then uncordoning the same node list restores every node's taints if and only if none
   of them carried the unschedulable key before, whatever retries the draining took.
   */
  lemma DrainUncordonRestoresIff(nodes: Nodes, calls: seq<seq<Patch>>, patches: seq<Patch>)
    requires forall c :: 0 <= c < |calls| ==> |calls[c]| == |nodes|
    requires |patches| == |nodes| && AllAcked(patches)
    requires forall j :: 0 <= j < |nodes| ==> Drained(DrainAll(nodes, calls)[j])
    ensures UncordonFrom(DrainAll(nodes, calls), patches, 0).nodes == nodes
       <==> forall j :: 0 <= j < |nodes| ==> !HasKey(nodes[j])
  {
    var drained := DrainAll(nodes, calls);
    forall j | 0 <= j < |nodes| ensures HasKey(drained[j]) && Strip(drained[j]) == Strip(nodes[j]) {
      DrainedHasKey(drained[j]);
      DrainAddsAtMostOne(nodes, calls, j);
      StripDropsAdded(nodes[j], drained[j]);
    }
    UncordonEffect(drained, patches, 0);
    forall j | 0 <= j < |nodes| ensures Strip(nodes[j]) == nodes[j] <==> !HasKey(nodes[j]) {
      StripShrinksIff(nodes[j]);
    }
  }
}
