/** The parameter-dropping retry loop of src/ai_api/proxy/router.py. */
module ParameterRetry {
  import opened Common

  type Params = map<string, string>

  datatype Reply = Completion(body: string) | Error(message: string)

  /** The parameter an error names, if it still is among the parameters. */
  predicate Names(rejected: string -> Option<string>, reply: Reply, params: Params) {
    reply.Error? && rejected(reply.message).Some? && rejected(reply.message).value in params
  }

  /** The calls made, the last outermost: the parameters passed on, and the reply. */
  datatype History = NoCall | Call(before: History, params: Params, reply: Reply)

  function Count(h: History): nat {
    match h
    case NoCall => 0
    case Call(before, _, _) => Count(before) + 1
  }

  /** The parameter that the reply names, if it names one. */
  function NamedBy(rejected: string -> Option<string>, reply: Reply): set<string> {
    if reply.Error? && rejected(reply.message).Some? then {rejected(reply.message).value} else {}
  }

  /** The parameters named by the errors of these calls. */
  function AllNamed(rejected: string -> Option<string>, h: History): set<string> {
    match h
    case NoCall => {}
    case Call(before, _, reply) => AllNamed(rejected, before) + NamedBy(rejected, reply)
  }

  /** A retry with these parameters may follow: the last error names a parameter that it
      carried, and the retry lacks exactly that one. */
  predicate MayFollow(passthrough: Params, rejected: string -> Option<string>, h: History, params: Params) {
    match h
    case NoCall => params == passthrough
    case Call(_, last, reply) => Names(rejected, reply, last) && params == last - NamedBy(rejected, reply)
  }

  /** The upstream, whose reply may depend on the number of the call, gave these replies
      to calls of which each may follow the ones before. */
  predicate Legal(
      passthrough: Params, upstream: (nat, Params) -> Reply, rejected: string -> Option<string>, h: History)
  {
    match h
    case NoCall => true
    case Call(before, params, reply) =>
      && Legal(passthrough, upstream, rejected, before)
      && MayFollow(passthrough, rejected, before, params)
      && reply == upstream(Count(before), params)
  }

  lemma DropOne(params: Params, name: string)
    requires name in params
    ensures |params - {name}| == |params| - 1
  {
    assert (params - {name}).Keys == params.Keys - {name};
  }

  /** _call_upstream, for any upstream and any way to read a parameter name out of an
      error. It ends after at most one call more than there are parameters; what it
      returns or finally raises is the last reply, and names no remaining parameter. */
  method CallUpstream(passthrough: Params, upstream: (nat, Params) -> Reply, rejected: string -> Option<string>)
    returns (reply: Reply, calls: History)
    ensures Legal(passthrough, upstream, rejected, calls) && Count(calls) <= |passthrough| + 1
    ensures calls.Call? && reply == calls.reply
    ensures reply.Error? && rejected(reply.message).Some? ==> rejected(reply.message).value !in calls.params
  {
    var droppable := passthrough;
    calls := NoCall;
    while true
      invariant Count(calls) + |droppable| == |passthrough|
      invariant Legal(passthrough, upstream, rejected, calls)
      invariant MayFollow(passthrough, rejected, calls, droppable)
      decreases |droppable|
    {
      reply := upstream(Count(calls), droppable);
      calls := Call(calls, droppable, reply);
      if reply.Error? {
        var param := rejected(reply.message);
        if param.Some? && param.value in droppable {
          DropOne(droppable, param.value);
          droppable := droppable - {param.value};
          continue;
        }
      }
      return;
    }
  }

  /** Every call carries the original parameters minus exactly those named by the errors
      before it. */
  lemma {:induction false} NamedAreDropped(
      passthrough: Params, upstream: (nat, Params) -> Reply, rejected: string -> Option<string>, h: History)
    requires h.Call? && Legal(passthrough, upstream, rejected, h)
    ensures h.params == passthrough - AllNamed(rejected, h.before)
  {
    if h.before.NoCall? {
      assert passthrough - {} == passthrough;
    } else {
      NamedAreDropped(passthrough, upstream, rejected, h.before);
      DropMore(passthrough, AllNamed(rejected, h.before.before), NamedBy(rejected, h.before.reply));
    }
  }

  lemma DropMore(params: Params, some: set<string>, more: set<string>)
    ensures (params - some) - more == params - (some + more)
  {
  }

  /** The errors that were followed by a retry each named one of the original parameters,
      and no two of them the same one. */
  lemma {:induction false} EachNamedOnce(
      passthrough: Params, upstream: (nat, Params) -> Reply, rejected: string -> Option<string>, h: History)
    requires h.Call? && Legal(passthrough, upstream, rejected, h)
    ensures AllNamed(rejected, h.before) <= passthrough.Keys
    ensures |AllNamed(rejected, h.before)| == Count(h.before)
  {
    if h.before.NoCall? {
    } else {
      EachNamedOnce(passthrough, upstream, rejected, h.before);
      NamedAreDropped(passthrough, upstream, rejected, h.before);
    }
  }

  /** Of two calls in a row the first came back with an error that names a parameter it
      carried, and the second carries the rest of them, with the same values. */
  lemma RetryDropsOne(
      passthrough: Params, upstream: (nat, Params) -> Reply, rejected: string -> Option<string>, h: History)
    requires Legal(passthrough, upstream, rejected, h) && h.Call? && h.before.Call?
    ensures h.before.reply.Error?
    ensures var named := rejected(h.before.reply.message);
      && named.Some? && named.value in h.before.params
      && h.params.Keys == h.before.params.Keys - {named.value}
      && forall p | p in h.params :: h.params[p] == h.before.params[p]
    ensures h.before.reply == upstream(Count(h) - 2, h.before.params) && h.reply == upstream(Count(h) - 1, h.params)
  {
  }
}
