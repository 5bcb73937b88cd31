/** `unaryCall_hook`: the replacement for the gRPC unary-call send function. It shows
    the outgoing request to the managed `onNativeUnaryCall` callback and, depending on
    the answer, forwards the request unchanged, drops it, or rebuilds the slice buffer
    around a replacement payload before forwarding it. */
module UnaryCall {
  import opened Optional
  import opened SliceBuffers

  /** The managed `NativeRequestData` object: `canceled` and the replacement `buffer`. */
  datatype RequestData = RequestData(canceled: bool, buffer: seq<byte>)

  /** The managed `onNativeUnaryCall(uri, request)`; `None` is a null return. */
  type Callback = (string, seq<byte>) -> Option<RequestData>

  /** The arguments of one invocation of the callback. */
  datatype CallbackArgs = CallbackArgs(uri: string, request: seq<byte>)

  /** The function-local static `ref_counter_struct_size`: unset until the first
      rewrite initialises it, never changed afterwards. */
  datatype HookState = HookState(headerSize: Option<nat>)

  const Unset: HookState := HookState(None)

  /** What reached the caller and the original send: a dropped call (null returned,
      original not called), a call forwarded to the original with the given buffer,
      or a header copy that would read past the end of the old block. */
  datatype Outcome = Dropped | Forwarded(buffer: SliceBuffer) | HeaderOverrun

  /** One hook call: the static after the call, the callback invocations, the outcome. */
  datatype Step = Step(state: HookState, callbacks: seq<CallbackArgs>, outcome: Outcome)

  /** The callback is consulted for `buf` and answers with a replacement. */
  ghost predicate Rewrites(uri: string, buf: SliceBuffer, onUnaryCall: Callback)
  {
    && buf.refCounted && buf.Valid()
    && onUnaryCall(uri, buf.Payload()).Some?
    && !onUnaryCall(uri, buf.Payload()).value.canceled
  }

  /** The header size a rewrite of `buf` uses: the captured one if any, else its own. */
  function HeaderSizeFor(st: HookState, buf: SliceBuffer): (h: nat)
  {
    match st.headerSize
    case Some(h) => h
    case None => buf.dataOffset
  }

  /** One call of `unaryCall_hook` for `uri` with slice buffer `buf`. */
  function Hook(st: HookState, uri: string, buf: SliceBuffer, onUnaryCall: Callback): (s: Step)
    requires buf.refCounted ==> buf.Valid()
    // the callback runs at most once, and only on a counted buffer, with its payload
    ensures |s.callbacks| <= 1
    ensures !buf.refCounted ==> s == Step(st, [], Forwarded(buf))
    ensures buf.refCounted ==> s.callbacks == [CallbackArgs(uri, buf.Payload())]
    // null answer: forwarded untouched
    ensures buf.refCounted && onUnaryCall(uri, buf.Payload()).None? ==>
              s.outcome == Forwarded(buf) && s.state == st
    // cancel: dropped
    ensures buf.refCounted && onUnaryCall(uri, buf.Payload()).Some? &&
            onUnaryCall(uri, buf.Payload()).value.canceled ==>
              s.outcome == Dropped && s.state == st
    ensures s.outcome.Dropped? ==> buf.refCounted
    // replacement: the static is captured once, and the buffer is rebuilt around it
    ensures Rewrites(uri, buf, onUnaryCall) ==>
              s.state.headerSize == Some(HeaderSizeFor(st, buf))
    ensures Rewrites(uri, buf, onUnaryCall) && HeaderSizeFor(st, buf) <= |buf.block| ==>
              var replacement := onUnaryCall(uri, buf.Payload()).value.buffer;
              var h := HeaderSizeFor(st, buf);
              && s.outcome.Forwarded?
              && s.outcome.buffer.refCounted
              && s.outcome.buffer.Valid()
              && s.outcome.buffer.dataOffset == h
              && s.outcome.buffer.length == |replacement|
              && |s.outcome.buffer.block| == h + |replacement|
              && s.outcome.buffer.Header() == buf.block[..h]
              && s.outcome.buffer.Payload() == replacement
    ensures s.outcome.HeaderOverrun? <==>
              Rewrites(uri, buf, onUnaryCall) && HeaderSizeFor(st, buf) > |buf.block|
    // a captured size is never replaced, and the first capture never overruns
    ensures st.headerSize.Some? ==> s.state == st
    ensures st.headerSize.None? ==> !s.outcome.HeaderOverrun?
  {
    if !buf.refCounted then
      Step(st, [], Forwarded(buf))
    else
      var request := buf.Payload();
      var calls := [CallbackArgs(uri, request)];
      match onUnaryCall(uri, request)
      case None => Step(st, calls, Forwarded(buf))
      case Some(data) =>
        if data.canceled then
          Step(st, calls, Dropped)
        else
          var headerSize := HeaderSizeFor(st, buf);
          var st' := HookState(Some(headerSize));
          if headerSize <= |buf.block| then
            Step(st', calls, Forwarded(Rebuild(buf, headerSize, data.buffer)))
          else
            Step(st', calls, HeaderOverrun)
  }

  /** A request reaching the hook: the uri, the slice buffer, and the managed callback
      as it answers at that moment (its answers may depend on settings that change
      between calls). */
  datatype Request = Request(uri: string, buf: SliceBuffer, onUnaryCall: Callback)

  ghost predicate WellFormed(reqs: seq<Request>)
  {
    forall i :: 0 <= i < |reqs| ==> (reqs[i].buf.refCounted ==> reqs[i].buf.Valid())
  }

  /** The static after the hook has handled `reqs` in order. */
  function FinalState(st: HookState, reqs: seq<Request>): (r: HookState)
    requires WellFormed(reqs)
    decreases |reqs|
  {
    if |reqs| == 0 then st
    else FinalState(Hook(st, reqs[0].uri, reqs[0].buf, reqs[0].onUnaryCall).state, reqs[1..])
  }

  /** Reference definition: the data offset of the first request its callback rewrites. */
  ghost function FirstRewriteOffset(reqs: seq<Request>): (r: Option<nat>)
    decreases |reqs|
  {
    if |reqs| == 0 then None
    else if Rewrites(reqs[0].uri, reqs[0].buf, reqs[0].onUnaryCall) then Some(reqs[0].buf.dataOffset)
    else FirstRewriteOffset(reqs[1..])
  }

  /** Once captured, the header size survives any further traffic. */
  lemma {:induction false} CapturedSizeIsStable(st: HookState, reqs: seq<Request>)
    requires WellFormed(reqs) && st.headerSize.Some?
    ensures FinalState(st, reqs) == st
    decreases |reqs|
  {
    if |reqs| > 0 {
      CapturedSizeIsStable(st, reqs[1..]);
    }
  }

  /** Starting from a fresh process, the static holds the header size of the first
      rewritten request, and stays unset while nothing has been rewritten. */
  lemma {:induction false} CapturedOnFirstRewrite(reqs: seq<Request>)
    requires WellFormed(reqs)
    ensures FinalState(Unset, reqs).headerSize == FirstRewriteOffset(reqs)
    decreases |reqs|
  {
    if |reqs| > 0 {
      var s := Hook(Unset, reqs[0].uri, reqs[0].buf, reqs[0].onUnaryCall);
      if Rewrites(reqs[0].uri, reqs[0].buf, reqs[0].onUnaryCall) {
        CapturedSizeIsStable(s.state, reqs[1..]);
      } else {
        assert s.state == Unset;
        CapturedOnFirstRewrite(reqs[1..]);
      }
    }
  }

  /** On a buffer whose header size equals the captured one, the rewrite keeps the
      buffer's own header byte for byte. */
  lemma MatchingHeaderIsPreserved(st: HookState, uri: string, buf: SliceBuffer, onUnaryCall: Callback)
    requires buf.Valid() && Rewrites(uri, buf, onUnaryCall)
    requires st.headerSize.None? || st.headerSize.value == buf.dataOffset
    ensures Hook(st, uri, buf, onUnaryCall).outcome.Forwarded?
    ensures Hook(st, uri, buf, onUnaryCall).outcome.buffer.Header() == buf.Header()
  {
  }
}
