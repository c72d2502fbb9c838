/** `PlayModeZone`: the public facade clients call to add, replace or remove a named
    function. It keeps no table of its own: each call forwards its arguments to every
    subscriber of one of three events, in subscription order. What a subscriber then
    does is not this class's concern, so a call returns the notifications it raised,
    one per subscriber. */
module PlayModeZoneFacade {
  import opened ProviderTypes

  /** A delegate subscribed to one of the events, known by identity. */
  datatype Subscriber = Subscriber(id: nat)

  /** The arguments of an event: `CreateFunctionDelegate(functionName, function)` for the
      two add events, `DisposeFunctionDelegate(functionName)` for the remove event. */
  datatype Request =
    | AddFunctionRequest(functionName: string, action: Action)
    | AddOrReplaceFunctionRequest(functionName: string, action: Action)
    | RemoveFunctionRequest(functionName: string)

  /** One subscriber being invoked with one request. */
  datatype Notification = Notification(subscriber: Subscriber, request: Request)

  /** Invoking a multicast event: every subscriber, in subscription order, gets `request`;
      with no subscriber (a null event) nothing is invoked. */
  function Broadcast(subscribers: seq<Subscriber>, request: Request): seq<Notification> {
    seq(|subscribers|, i requires 0 <= i < |subscribers| => Notification(subscribers[i], request))
  }

  class PlayModeZone {
    /** The invocation lists of `ClientRequestedToAddFunction`,
        `ClientRequestedToAddOrReplaceFunction` and `ClientRequestedToRemoveFunction`. */
    var clientRequestedToAddFunction: seq<Subscriber>
    var clientRequestedToAddOrReplaceFunction: seq<Subscriber>
    var clientRequestedToRemoveFunction: seq<Subscriber>

    /** The events start with no subscriber. */
    constructor ()
      ensures clientRequestedToAddFunction == []
      ensures clientRequestedToAddOrReplaceFunction == []
      ensures clientRequestedToRemoveFunction == []
    {
      clientRequestedToAddFunction := [];
      clientRequestedToAddOrReplaceFunction := [];
      clientRequestedToRemoveFunction := [];
    }

    /** `ClientRequestedToAddFunction += s`. */
    method SubscribeToAddFunction(s: Subscriber)
      modifies this`clientRequestedToAddFunction
      ensures clientRequestedToAddFunction == old(clientRequestedToAddFunction) + [s]
    {
      clientRequestedToAddFunction := clientRequestedToAddFunction + [s];
    }

    /** `ClientRequestedToAddOrReplaceFunction += s`. */
    method SubscribeToAddOrReplaceFunction(s: Subscriber)
      modifies this`clientRequestedToAddOrReplaceFunction
      ensures clientRequestedToAddOrReplaceFunction == old(clientRequestedToAddOrReplaceFunction) + [s]
    {
      clientRequestedToAddOrReplaceFunction := clientRequestedToAddOrReplaceFunction + [s];
    }

    /** `ClientRequestedToRemoveFunction += s`. */
    method SubscribeToRemoveFunction(s: Subscriber)
      modifies this`clientRequestedToRemoveFunction
      ensures clientRequestedToRemoveFunction == old(clientRequestedToRemoveFunction) + [s]
    {
      clientRequestedToRemoveFunction := clientRequestedToRemoveFunction + [s];
    }

    /** `AddFunction(functionName, action)`: every add subscriber, and only those, gets
        the name and the action unchanged. Nothing is checked or remembered here, so the
        same name given twice is forwarded twice. */
    method AddFunction(functionName: string, action: Action) returns (raised: seq<Notification>)
      ensures |raised| == |clientRequestedToAddFunction|
      ensures forall i :: 0 <= i < |raised| ==>
        raised[i] == Notification(clientRequestedToAddFunction[i], AddFunctionRequest(functionName, action))
    {
      raised := Broadcast(clientRequestedToAddFunction, AddFunctionRequest(functionName, action));
    }

    /** `AddOrReplaceFunction(functionName, action)`: every add-or-replace subscriber, and
        only those, gets the name and the action unchanged. */
    method AddOrReplaceFunction(functionName: string, action: Action) returns (raised: seq<Notification>)
      ensures |raised| == |clientRequestedToAddOrReplaceFunction|
      ensures forall i :: 0 <= i < |raised| ==>
        raised[i] == Notification(clientRequestedToAddOrReplaceFunction[i], AddOrReplaceFunctionRequest(functionName, action))
    {
      raised := Broadcast(clientRequestedToAddOrReplaceFunction, AddOrReplaceFunctionRequest(functionName, action));
    }

    /** `RemoveFunction(functionName)`: every remove subscriber, and only those, gets the name. */
    method RemoveFunction(functionName: string) returns (raised: seq<Notification>)
      ensures |raised| == |clientRequestedToRemoveFunction|
      ensures forall i :: 0 <= i < |raised| ==>
        raised[i] == Notification(clientRequestedToRemoveFunction[i], RemoveFunctionRequest(functionName))
    {
      raised := Broadcast(clientRequestedToRemoveFunction, RemoveFunctionRequest(functionName));
    }
  }

  /** The facade does not deduplicate: two `AddFunction` calls with the same name, on the
      same subscribers, raise one notification per subscriber each time, the second
      carrying the second action. */
  method AddFunctionTwice(facade: PlayModeZone, functionName: string, first: Action, second: Action)
    returns (raisedFirst: seq<Notification>, raisedSecond: seq<Notification>)
    ensures |raisedFirst| == |raisedSecond| == |facade.clientRequestedToAddFunction|
    ensures forall i :: 0 <= i < |raisedSecond| ==>
      raisedSecond[i].request == AddFunctionRequest(functionName, second) &&
      raisedSecond[i].subscriber == raisedFirst[i].subscriber
  {
    raisedFirst := facade.AddFunction(functionName, first);
    raisedSecond := facade.AddFunction(functionName, second);
  }
}
