/**
 * The update processor that asks Sentry for UPDATE on the collection before handing each
 * update command to the next processor of the chain. The processor keeps the request it
 * was built for; its log records, in order, every authorization it asked for (with the
 * verdict) and every call it forwarded to the next processor.
 */
module UpdateIndexAuthorizationProcessor {
  import opened Sequences
  import opened SentryCheck

  /** A request, as far as authorization is concerned: who asks, and on which collection. */
  datatype SolrQueryRequest = SolrQueryRequest(user: string, collection: string)

  /** An update command; its fields are passed through untouched. */
  datatype UpdateCommand = UpdateCommand(fields: map<string, string>)

  /** The six calls an update processor receives. */
  datatype UpdateCall =
    | ProcessAdd(add: UpdateCommand)
    | ProcessDelete(delete: UpdateCommand)
    | ProcessMergeIndexes(merge: UpdateCommand)
    | ProcessCommit(commit: UpdateCommand)
    | ProcessRollback(rollback: UpdateCommand)
    | Finish

  datatype ProcessorEvent =
    | AuthorizeCollectionAction(req: SolrQueryRequest, actions: set<SearchModelAction>, granted: bool)
    | Forward(call: UpdateCall)

  datatype Verdict = Forwarded | Denied

  /** The events of one call: the authorization, then the forwarded call if it was granted. */
  function Step(req: SolrQueryRequest, call: UpdateCall, granted: bool): seq<ProcessorEvent> {
    [AuthorizeCollectionAction(req, UpdateOnly, granted)] + (if granted then [Forward(call)] else [])
  }

  /** The log left by a history of calls, each paired with the verdict it got. */
  function Steps(req: SolrQueryRequest, history: seq<(UpdateCall, bool)>): seq<ProcessorEvent> {
    if history == [] then []
    else Steps(req, history[..|history| - 1]) + Step(req, history[|history| - 1].0, history[|history| - 1].1)
  }

  /** The calls the next processor received, in order. */
  function Received(log: seq<ProcessorEvent>): seq<UpdateCall> {
    if log == [] then []
    else Received(log[..|log| - 1]) + (if log[|log| - 1].Forward? then [log[|log| - 1].call] else [])
  }

  /** The calls of a history whose authorization was granted, in order. */
  function Granted(history: seq<(UpdateCall, bool)>): seq<UpdateCall> {
    if history == [] then []
    else Granted(history[..|history| - 1]) + (if history[|history| - 1].1 then [history[|history| - 1].0] else [])
  }

  /** The number of authorizations in a log. */
  function AuthorizationCount(log: seq<ProcessorEvent>): nat {
    if log == [] then 0
    else AuthorizationCount(log[..|log| - 1]) + (if log[|log| - 1].AuthorizeCollectionAction? then 1 else 0)
  }

  lemma {:induction false} ReceivedAppend(a: seq<ProcessorEvent>, b: seq<ProcessorEvent>)
    ensures Received(a + b) == Received(a) + Received(b)
    decreases |b|
  {
    if b == [] {
      AppendEmpty(a);
      AppendEmpty(Received(a));
    } else {
      DropLastOfAppend(a, b);
      ReceivedAppend(a, b[..|b| - 1]);
      Assoc3(Received(a), Received(b[..|b| - 1]), (if b[|b| - 1].Forward? then [b[|b| - 1].call] else []));
    }
  }

  lemma {:induction false} CountAppend(a: seq<ProcessorEvent>, b: seq<ProcessorEvent>)
    ensures AuthorizationCount(a + b) == AuthorizationCount(a) + AuthorizationCount(b)
    decreases |b|
  {
    if b == [] {
      AppendEmpty(a);
    } else {
      DropLastOfAppend(a, b);
      CountAppend(a, b[..|b| - 1]);
    }
  }

  /** What one call leaves in the log: one authorization, and the call itself once granted. */
  lemma StepFacts(req: SolrQueryRequest, call: UpdateCall, granted: bool)
    ensures Received(Step(req, call, granted)) == if granted then [call] else []
    ensures AuthorizationCount(Step(req, call, granted)) == 1
  {
    var a := AuthorizeCollectionAction(req, UpdateOnly, granted);
    assert [a][..0] == [];
    assert Received([a]) == [] && AuthorizationCount([a]) == 1;
    if granted {
      assert Step(req, call, granted) == [a, Forward(call)];
      assert [a, Forward(call)][..1] == [a];
    } else {
      assert Step(req, call, granted) == [a];
    }
  }

  /** The next processor receives exactly the calls that were authorized, unchanged and in
      the order they were made; a denied call reaches it not at all. */
  lemma {:induction false} NextReceivesGrantedCalls(req: SolrQueryRequest, history: seq<(UpdateCall, bool)>)
    ensures Received(Steps(req, history)) == Granted(history)
  {
    if history != [] {
      var last := history[|history| - 1];
      NextReceivesGrantedCalls(req, history[..|history| - 1]);
      ReceivedAppend(Steps(req, history[..|history| - 1]), Step(req, last.0, last.1));
      StepFacts(req, last.0, last.1);
    }
  }

  /** Every call is authorized exactly once. */
  lemma {:induction false} OneAuthorizationPerCall(req: SolrQueryRequest, history: seq<(UpdateCall, bool)>)
    ensures AuthorizationCount(Steps(req, history)) == |history|
  {
    if history != [] {
      var last := history[|history| - 1];
      OneAuthorizationPerCall(req, history[..|history| - 1]);
      CountAppend(Steps(req, history[..|history| - 1]), Step(req, last.0, last.1));
      StepFacts(req, last.0, last.1);
    }
  }

  /** Every authorization asks for exactly {UPDATE} on the request the processor was built
      for, and every forwarded call comes right after a granted authorization. */
  lemma {:induction false} AuthorizedWithUpdateOnly(req: SolrQueryRequest, history: seq<(UpdateCall, bool)>)
    ensures forall e | e in Steps(req, history) && e.AuthorizeCollectionAction? :: e.req == req && e.actions == {Update}
    ensures forall i | 0 <= i < |Steps(req, history)| && Steps(req, history)[i].Forward? ::
              i > 0 && Steps(req, history)[i - 1] == AuthorizeCollectionAction(req, UpdateOnly, true)
  {
    if history != [] {
      AuthorizedWithUpdateOnly(req, history[..|history| - 1]);
    }
  }

  class UpdateIndexAuthorizationProcessor {
    /** The request captured at construction; every authorization uses it. */
    const req: SolrQueryRequest
    /** Authorizations asked for and calls forwarded to the next processor, in order. */
    var log: seq<ProcessorEvent>
    /** The calls made so far with their verdicts. */
    ghost var history: seq<(UpdateCall, bool)>

    ghost predicate Valid()
      reads this
    {
      log == Steps(req, history)
    }

    constructor (req: SolrQueryRequest)
      ensures Valid() && this.req == req && log == [] && history == []
    {
      this.req := req;
      log := [];
      history := [];
    }

    /** Ask for UPDATE on the captured request, then forward `call` if it was granted. */
    method AuthorizeThenForward(call: UpdateCall, allow: (SolrQueryRequest, set<SearchModelAction>) -> bool)
      returns (verdict: Verdict)
      requires Valid()
      modifies this
      ensures Valid()
      ensures history == old(history) + [(call, allow(req, UpdateOnly))]
      ensures log == old(log) + Step(req, call, allow(req, UpdateOnly))
      ensures verdict == if allow(req, UpdateOnly) then Forwarded else Denied
    {
      var granted := allow(req, UpdateOnly);
      log := log + [AuthorizeCollectionAction(req, UpdateOnly, granted)];
      if !granted {
        history := history + [(call, false)];
        assert history[..|history| - 1] == old(history);
        return Denied;
      }
      log := log + [Forward(call)];
      history := history + [(call, true)];
      assert history[..|history| - 1] == old(history);
      verdict := Forwarded;
    }

    method ProcessAdd(cmd: UpdateCommand, allow: (SolrQueryRequest, set<SearchModelAction>) -> bool)
      returns (verdict: Verdict)
      requires Valid()
      modifies this
      ensures Valid() && history == old(history) + [(UpdateCall.ProcessAdd(cmd), allow(req, UpdateOnly))]
      ensures log == old(log) + Step(req, UpdateCall.ProcessAdd(cmd), allow(req, UpdateOnly))
      ensures verdict == if allow(req, UpdateOnly) then Forwarded else Denied
    {
      verdict := AuthorizeThenForward(UpdateCall.ProcessAdd(cmd), allow);
    }

    method ProcessDelete(cmd: UpdateCommand, allow: (SolrQueryRequest, set<SearchModelAction>) -> bool)
      returns (verdict: Verdict)
      requires Valid()
      modifies this
      ensures Valid() && history == old(history) + [(UpdateCall.ProcessDelete(cmd), allow(req, UpdateOnly))]
      ensures log == old(log) + Step(req, UpdateCall.ProcessDelete(cmd), allow(req, UpdateOnly))
      ensures verdict == if allow(req, UpdateOnly) then Forwarded else Denied
    {
      verdict := AuthorizeThenForward(UpdateCall.ProcessDelete(cmd), allow);
    }

    method ProcessMergeIndexes(cmd: UpdateCommand, allow: (SolrQueryRequest, set<SearchModelAction>) -> bool)
      returns (verdict: Verdict)
      requires Valid()
      modifies this
      ensures Valid() && history == old(history) + [(UpdateCall.ProcessMergeIndexes(cmd), allow(req, UpdateOnly))]
      ensures log == old(log) + Step(req, UpdateCall.ProcessMergeIndexes(cmd), allow(req, UpdateOnly))
      ensures verdict == if allow(req, UpdateOnly) then Forwarded else Denied
    {
      verdict := AuthorizeThenForward(UpdateCall.ProcessMergeIndexes(cmd), allow);
    }

    method ProcessCommit(cmd: UpdateCommand, allow: (SolrQueryRequest, set<SearchModelAction>) -> bool)
      returns (verdict: Verdict)
      requires Valid()
      modifies this
      ensures Valid() && history == old(history) + [(UpdateCall.ProcessCommit(cmd), allow(req, UpdateOnly))]
      ensures log == old(log) + Step(req, UpdateCall.ProcessCommit(cmd), allow(req, UpdateOnly))
      ensures verdict == if allow(req, UpdateOnly) then Forwarded else Denied
    {
      verdict := AuthorizeThenForward(UpdateCall.ProcessCommit(cmd), allow);
    }

    method ProcessRollback(cmd: UpdateCommand, allow: (SolrQueryRequest, set<SearchModelAction>) -> bool)
      returns (verdict: Verdict)
      requires Valid()
      modifies this
      ensures Valid() && history == old(history) + [(UpdateCall.ProcessRollback(cmd), allow(req, UpdateOnly))]
      ensures log == old(log) + Step(req, UpdateCall.ProcessRollback(cmd), allow(req, UpdateOnly))
      ensures verdict == if allow(req, UpdateOnly) then Forwarded else Denied
    {
      verdict := AuthorizeThenForward(UpdateCall.ProcessRollback(cmd), allow);
    }

    method Finish(allow: (SolrQueryRequest, set<SearchModelAction>) -> bool)
      returns (verdict: Verdict)
      requires Valid()
      modifies this
      ensures Valid() && history == old(history) + [(UpdateCall.Finish, allow(req, UpdateOnly))]
      ensures log == old(log) + Step(req, UpdateCall.Finish, allow(req, UpdateOnly))
      ensures verdict == if allow(req, UpdateOnly) then Forwarded else Denied
    {
      verdict := AuthorizeThenForward(UpdateCall.Finish, allow);
    }
  }
}
