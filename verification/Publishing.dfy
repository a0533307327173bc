/**
 The gRPC PublishEvents call (grpcserver/server.go): admission checks, one blocking
 publish, then non-blocking publishes until the first refusal.
 */
module Publishing {
  import opened Basics

  datatype Code = Unavailable | FailedPrecondition | InvalidArgument
  datatype Reply = Rejected(code: Code) | Accepted(count: nat, index: nat)
  datatype Request = Request(uuid: string, events: seq<Event>)

  // ---------------------------------------------------------------- strict mode

  datatype Problem = BadTimestamp | NoDataStream | NoDataset | NoNamespace | NoType | NoSource | NoInputId

  function DataStreamProblems(ds: Option<DataStream>): seq<Problem> {
    if ds.None? then
      [NoDataStream]
    else
      var dataset := if ds.value.dataset == "" then [NoDataset] else [];
      var name := if ds.value.namespaceName == "" then [NoNamespace] else [];
      var kind := if ds.value.kind == "" then [NoType] else [];
      dataset + name + kind
  }

  function SourceProblems(s: Option<Source>): seq<Problem> {
    if s.None? then [NoSource] else if s.value.inputId == "" then [NoInputId] else []
  }

  function Problems(e: Event): seq<Problem> {
    (if e.timestampValid then [] else [BadTimestamp]) + DataStreamProblems(e.dataStream) + SourceProblems(e.source)
  }

  /** What strict mode asks of an event. */
  predicate WellFormed(e: Event) {
    && e.timestampValid
    && e.dataStream.Some?
    && "" !in {e.dataStream.value.dataset, e.dataStream.value.namespaceName, e.dataStream.value.kind}
    && e.source.Some? && e.source.value.inputId != ""
  }

  lemma WellFormedIffNoProblem(e: Event)
    ensures WellFormed(e) <==> Problems(e) == []
  {
    if e.dataStream.Some? {
      var ds := e.dataStream.value;
      assert WellFormed(e) ==> ds.dataset != "" && ds.namespaceName != "" && ds.kind != "";
    }
    assert Problems(e) == [] ==> DataStreamProblems(e.dataStream) == [] && SourceProblems(e.source) == [];
  }

  method ValidateAll(events: seq<Event>) returns (ok: bool)
    ensures ok <==> forall e :: e in events ==> WellFormed(e)
  {
    for i := 0 to |events|
      invariant forall e :: e in events[..i] ==> WellFormed(e)
    {
      WellFormedIffNoProblem(events[i]);
      if Problems(events[i]) != [] {
        assert events[i] in events;
        return false;
      }
    }
    assert events[..|events|] == events;
    return true;
  }

  // ---------------------------------------------------------------- one call

  /** How far a call has come. `Trying` counts the events accepted so far and
      remembers the ID of the last one. */
  datatype Phase = Publish | Trying(count: nat, index: nat) | Replied(reply: Reply)

  ghost function Admit(serverUuid: string, strict: bool, initialized: bool, req: Request): Phase {
    if !initialized then Replied(Rejected(Unavailable))
    else if req.uuid != "" && req.uuid != serverUuid then Replied(Rejected(FailedPrecondition))
    else if req.events == [] then Replied(Rejected(InvalidArgument))
    else if strict && !(forall e :: e in req.events ==> WellFormed(e)) then Replied(Rejected(InvalidArgument))
    else Publish
  }

  /** The request may be meant for this server, and has events that strict mode, if on, accepts. */
  ghost predicate Admissible(serverUuid: string, strict: bool, req: Request) {
    && (req.uuid == "" || req.uuid == serverUuid)
    && req.events != []
    && (strict ==> forall e :: e in req.events ==> WellFormed(e))
  }

  lemma AdmitMeaning(serverUuid: string, strict: bool, initialized: bool, req: Request)
    ensures var p := Admit(serverUuid, strict, initialized, req);
            && (p == Publish <==> initialized && Admissible(serverUuid, strict, req))
            && (p != Publish ==> p.Replied? && p.reply.Rejected?)
  {
  }

  /** The publisher's answer to the blocking call and to a later call. */
  function AfterPublish(id: Option<nat>): Phase {
    if id.Some? then Trying(1, id.value) else Replied(Rejected(Unavailable))
  }

  function AfterTry(p: Phase, id: Option<nat>): Phase
    requires p.Trying?
  {
    if id.Some? then Trying(p.count + 1, id.value) else Replied(Accepted(p.count, p.index))
  }

  /** The whole call, given what the publisher answers to each attempt: `first` to the
      blocking one, tries(i) to the one for event i. */
  method PublishEvents(serverUuid: string, strict: bool, initialized: bool, req: Request,
                       first: Option<nat>, tries: nat -> Option<nat>)
    returns (reply: Reply)
    ensures reply.Rejected? <==> Admit(serverUuid, strict, initialized, req) != Publish || first.None?
    ensures var admitted := Admit(serverUuid, strict, initialized, req);
            admitted.Replied? ==> reply == admitted.reply
    ensures reply == Rejected(Unavailable) <==>
            !initialized || (Admissible(serverUuid, strict, req) && first.None?)
    ensures reply == Rejected(FailedPrecondition) <==>
            initialized && req.uuid != "" && req.uuid != serverUuid
    ensures reply == Rejected(InvalidArgument) <==>
            && initialized && (req.uuid == "" || req.uuid == serverUuid)
            && (req.events == [] || (strict && exists e :: e in req.events && !WellFormed(e)))
    ensures reply.Accepted? <==> initialized && Admissible(serverUuid, strict, req) && first.Some?
    ensures reply.Accepted? ==>
              && 1 <= reply.count <= |req.events|
              && (forall i :: 1 <= i < reply.count ==> tries(i).Some?)
              && (reply.count < |req.events| ==> tries(reply.count).None?)
              && Some(reply.index) == (if reply.count == 1 then first else tries(reply.count - 1))
  {
    if !initialized {
      return Rejected(Unavailable);
    }
    if req.uuid != "" && req.uuid != serverUuid {
      return Rejected(FailedPrecondition);
    }
    if |req.events| == 0 {
      return Rejected(InvalidArgument);
    }
    if strict {
      var ok := ValidateAll(req.events);
      if !ok {
        return Rejected(InvalidArgument);
      }
    }
    if first.None? {
      return Rejected(Unavailable);
    }
    var phase := AfterPublish(first);
    var i := 1;
    while i < |req.events|
      invariant 1 <= i <= |req.events|
      invariant phase.Trying? && phase.count == i
      invariant forall k :: 1 <= k < i ==> tries(k).Some?
      invariant Some(phase.index) == if i == 1 then first else tries(i - 1)
    {
      var next := AfterTry(phase, tries(i));
      if next.Replied? {
        return next.reply;
      }
      phase := next;
      i := i + 1;
    }
    return Accepted(phase.count, phase.index);
  }
}
