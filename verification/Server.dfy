/** The variables of a machine's OPC-UA server, and checked writes to them. */
module Server {
  import opened Wrappers
  import opened Variants

  datatype NodeId = NodeId(namespaceIndex: u16, id: u32)

  datatype WriteValue = WriteValue(node: NodeId, value: Variant)

  /** What becomes of a write request: the writes that are not applied, by rank, and whether an
      answer, with the status of each write, comes back. */
  datatype WriteOutcome = WriteOutcome(answered: bool, dropped: set<nat>)

  datatype WriteError = WriteRequest | WriteStatus(node: NodeId)

  type Variables = map<NodeId, Variant>

  function Written(variables: Variables, writes: seq<WriteValue>, dropped: set<nat>): Variables {
    if writes == [] then variables
    else
      var n := |writes| - 1;
      var before := Written(variables, writes[..n], dropped);
      if n in dropped then before else before[writes[n].node := writes[n].value]
  }

  predicate AllApplied(outcome: WriteOutcome, writes: nat) {
    outcome.answered && forall i :: 0 <= i < writes ==> i !in outcome.dropped
  }

  /** The first write that is not applied, from a rank on. */
  function FirstDropped(writes: nat, dropped: set<nat>, from: nat := 0): (r: Option<nat>)
    requires from <= writes
    ensures r.None? <==> forall i :: from <= i < writes ==> i !in dropped
    ensures r.Some? ==> from <= r.value < writes && r.value in dropped
    ensures r.Some? ==> forall i :: from <= i < r.value ==> i !in dropped
    decreases writes - from
  {
    if from == writes then None else if from in dropped then Some(from) else FirstDropped(writes, dropped, from + 1)
  }

  /** The result of a checked write: an error is the loss of the answer, or the first write not
      applied. */
  function Checked(writes: seq<WriteValue>, outcome: WriteOutcome): (r: Result<(), WriteError>)
    ensures r.Ok? <==> AllApplied(outcome, |writes|)
    ensures r == Err(WriteRequest) <==> !outcome.answered
    ensures r.Err? && r.error.WriteStatus? ==>
              exists i ::
                && 0 <= i < |writes| && i in outcome.dropped && r.error.node == writes[i].node
                && forall j :: 0 <= j < i ==> j !in outcome.dropped
  {
    if !outcome.answered then Err(WriteRequest)
    else
      match FirstDropped(|writes|, outcome.dropped)
      case None => Ok(())
      case Some(i) => Err(WriteStatus(writes[i].node))
  }

  /** The value of the last write to a node. */
  function LastWrite(writes: seq<WriteValue>, node: NodeId): Option<Variant> {
    if writes == [] then None
    else
      var n := |writes| - 1;
      if writes[n].node == node then Some(writes[n].value) else LastWrite(writes[..n], node)
  }

  /** Applied in full, a write request gives each node the last value written to it, and leaves
      the other nodes alone. */
  lemma {:induction false} WrittenInFull(variables: Variables, writes: seq<WriteValue>, dropped: set<nat>, node: NodeId)
    requires forall i :: 0 <= i < |writes| ==> i !in dropped
    ensures
      var after := Written(variables, writes, dropped);
      match LastWrite(writes, node)
      case Some(value) => node in after && after[node] == value
      case None => (node in after <==> node in variables) && (node in variables ==> after[node] == variables[node])
  {
    if writes != [] {
      WrittenInFull(variables, writes[..|writes| - 1], dropped, node);
    }
  }

  /** Whatever else is dropped, a write that is applied shows, when no later one to its node is. */
  lemma {:induction false} LastAppliedShows(variables: Variables, writes: seq<WriteValue>, dropped: set<nat>, i: nat)
    requires i < |writes| && i !in dropped
    requires forall j :: i < j < |writes| && writes[j].node == writes[i].node ==> j in dropped
    ensures
      var after := Written(variables, writes, dropped);
      writes[i].node in after && after[writes[i].node] == writes[i].value
  {
    var n := |writes| - 1;
    if i < n {
      assert forall j :: 0 <= j < n ==> writes[..n][j] == writes[j];
      LastAppliedShows(variables, writes[..n], dropped, i);
    }
  }

  /** A node keeps its value when no write to it is applied. */
  lemma {:induction false} NoneApplied(variables: Variables, writes: seq<WriteValue>, dropped: set<nat>, node: NodeId)
    requires forall i :: 0 <= i < |writes| && writes[i].node == node ==> i in dropped
    ensures
      var after := Written(variables, writes, dropped);
      (node in after <==> node in variables) && (node in variables ==> after[node] == variables[node])
  {
    if writes != [] {
      NoneApplied(variables, writes[..|writes| - 1], dropped, node);
    }
  }

  lemma SingleWrite(variables: Variables, node: NodeId, value: Variant, dropped: set<nat>)
    ensures Written(variables, [WriteValue(node, value)], dropped) ==
            if 0 in dropped then variables else variables[node := value]
  {
    assert [WriteValue(node, value)][..0] == [];
  }

  /** Whatever is dropped, a node that is not written to keeps its value. */
  lemma {:induction false} WrittenElsewhere(variables: Variables, writes: seq<WriteValue>, dropped: set<nat>,
                                            node: NodeId)
    requires LastWrite(writes, node).None?
    ensures
      var after := Written(variables, writes, dropped);
      (node in after <==> node in variables) && (node in variables ==> after[node] == variables[node])
  {
    if writes != [] {
      WrittenElsewhere(variables, writes[..|writes| - 1], dropped, node);
    }
  }

  class OpcUaServer {
    var variables: Variables

    /** Writes values, and looks for the first status that is not good. */
    method WriteChecked(writes: seq<WriteValue>, outcome: WriteOutcome) returns (r: Result<(), WriteError>)
      modifies this
      ensures variables == Written(old(variables), writes, outcome.dropped)
      ensures r == Checked(writes, outcome)
    {
      var firstBad := None;
      for i := 0 to |writes|
        invariant variables == Written(old(variables), writes[..i], outcome.dropped)
        invariant firstBad.None? ==> forall j :: 0 <= j < i ==> j !in outcome.dropped
        invariant firstBad.Some? ==> 0 <= firstBad.value < i && firstBad.value in outcome.dropped
        invariant firstBad.Some? ==> forall j :: 0 <= j < firstBad.value ==> j !in outcome.dropped
      {
        assert writes[..i + 1][..i] == writes[..i];
        if i !in outcome.dropped {
          variables := variables[writes[i].node := writes[i].value];
        } else if firstBad.None? {
          firstBad := Some(i);
        }
      }
      assert writes[..|writes|] == writes;
      if !outcome.answered {
        return Err(WriteRequest);
      }
      if firstBad.Some? {
        return Err(WriteStatus(writes[firstBad.value].node));
      }
      return Ok(());
    }
  }
}
