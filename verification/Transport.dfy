/**
 From Pi's transport to the lifecycle: the numbers the reader gives out (module PiRpc) are exactly what
 the reconciliation of module Lifecycle needs, when prompts are called after Bind returned.
*/
module Transport {
  import opened Wrappers
  import Lifecycle
  import PiRpc

  /** The activity events among the records, under the reader's numbers. */
  function Activities(records: seq<PiRpc.Destination>, at: nat -> Option<Lifecycle.Activity>): seq<Lifecycle.Record> {
    if records == [] then []
    else
      var n := |records|;
      var earlier := Activities(records[..n - 1], at);
      if records[n - 1] == PiRpc.ToEvents && at(n).Some? then earlier + [Lifecycle.Record(n, at(n).value)] else earlier
  }

  /** Each activity stands at a position that went to the events, later ones further on. */
  ghost predicate Placed(events: seq<Lifecycle.Record>, records: seq<PiRpc.Destination>) {
    && (forall i | 0 <= i < |events| ::
          1 <= events[i].seqNo <= |records| && records[events[i].seqNo - 1] == PiRpc.ToEvents)
    && (forall i, j | 0 <= i < j < |events| :: events[i].seqNo < events[j].seqNo)
  }

  lemma {:induction false} ActivitiesArePlaced(records: seq<PiRpc.Destination>, at: nat -> Option<Lifecycle.Activity>)
    ensures Placed(Activities(records, at), records)
  {
    if records != [] {
      var n := |records|;
      ActivitiesArePlaced(records[..n - 1], at);
      PlacedFurther(Activities(records[..n - 1], at), records);
    }
  }

  lemma PlacedFurther(earlier: seq<Lifecycle.Record>, records: seq<PiRpc.Destination>)
    requires records != [] && Placed(earlier, records[..|records| - 1])
    ensures Placed(earlier, records)
    ensures records[|records| - 1] == PiRpc.ToEvents ==>
              forall activity :: Placed(earlier + [Lifecycle.Record(|records|, activity)], records)
  {
    forall i | 0 <= i < |earlier|
      ensures 1 <= earlier[i].seqNo < |records| && records[earlier[i].seqNo - 1] == PiRpc.ToEvents
    {
      assert records[..|records| - 1][earlier[i].seqNo - 1] == PiRpc.ToEvents;
    }
  }

  ghost predicate AnsweredAt(s: PiRpc.State, id: nat, seqNo: nat) {
    id in s.phases && s.phases[id] == PiRpc.Answered(PiRpc.Response(seqNo))
  }

  lemma PromptIsLater(
      before: seq<PiRpc.Action>, after: seq<PiRpc.Action>, bind: nat, bindSeq: nat, prompt: nat, response: nat)
    requires AnsweredAt(PiRpc.Run(PiRpc.New(), before), bind, bindSeq)
    requires prompt >= PiRpc.Run(PiRpc.New(), before).nextID
    requires AnsweredAt(PiRpc.Run(PiRpc.Run(PiRpc.New(), before), after), prompt, response)
    ensures var records := PiRpc.Run(PiRpc.Run(PiRpc.New(), before), after).records;
            bindSeq < response <= |records| && records[response - 1] == PiRpc.ToCall(prompt)
  {
    PiRpc.LaterCallLaterNumber(before, after, bind, bindSeq, prompt, response);
    var s := PiRpc.Run(PiRpc.New(), before);
    PiRpc.EveryRunKeepsInv(PiRpc.New(), before);
    PiRpc.EveryRunKeepsInv(s, after);
    assert PiRpc.CallInv(PiRpc.Run(s, after), prompt);
  }

  lemma BindIsRecorded(before: seq<PiRpc.Action>, after: seq<PiRpc.Action>, bind: nat, bindSeq: nat)
    requires AnsweredAt(PiRpc.Run(PiRpc.New(), before), bind, bindSeq)
    ensures var records := PiRpc.Run(PiRpc.Run(PiRpc.New(), before), after).records;
            0 < bindSeq <= |records| && records[bindSeq - 1] == PiRpc.ToCall(bind)
  {
    var s := PiRpc.Run(PiRpc.New(), before);
    PiRpc.EveryRunKeepsInv(PiRpc.New(), before);
    PiRpc.RunKeepsRecords(PiRpc.New(), before);
    PiRpc.RunKeepsRecords(s, after);
    assert PiRpc.CallInv(s, bind);
  }

  /**
   Whatever the transport did before Bind was answered and after, the numbers of its events, of Bind
   and of any later prompts are distinct, increasing on the wire, and the prompts' are past Bind's.
  */
  lemma WireIsWellNumbered(
      before: seq<PiRpc.Action>, after: seq<PiRpc.Action>, bind: nat, prompts: seq<nat>,
      kind: Lifecycle.Kind, streaming: bool, at: nat -> Option<Lifecycle.Activity>, bindSeq: nat, responses: seq<nat>)
    requires AnsweredAt(PiRpc.Run(PiRpc.New(), before), bind, bindSeq)
    requires |prompts| == |responses|
    requires forall i | 0 <= i < |prompts| ::
               && prompts[i] >= PiRpc.Run(PiRpc.New(), before).nextID
               && AnsweredAt(PiRpc.Run(PiRpc.Run(PiRpc.New(), before), after), prompts[i], responses[i])
    ensures var t := PiRpc.Run(PiRpc.Run(PiRpc.New(), before), after);
            Lifecycle.WellNumbered(Lifecycle.Wire(kind, bindSeq, streaming, Activities(t.records, at), responses))
  {
    hide PiRpc.Run, PiRpc.New, Activities, AnsweredAt;
    var records := PiRpc.Run(PiRpc.Run(PiRpc.New(), before), after).records;
    BindIsRecorded(before, after, bind, bindSeq);
    ActivitiesArePlaced(records, at);
    forall i | 0 <= i < |prompts|
      ensures bindSeq < responses[i] <= |records| && records[responses[i] - 1] == PiRpc.ToCall(prompts[i])
    {
      PromptIsLater(before, after, bind, bindSeq, prompts[i], responses[i]);
    }
  }
}
