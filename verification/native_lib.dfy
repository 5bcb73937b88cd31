/** The library's entry points and process-wide state: `init` installs the hooks,
    `load_config` fills the configuration, and calls of `fstat` and of the unary-call
    send function either reach the hooks or go straight to the originals. */
module NativeLib {
  import opened Optional
  import opened Config
  import opened SliceBuffers
  import FileStatus
  import UnaryCall

  /** What `util::get_module("libclient.so")` reports; a zero base means not found. */
  datatype LoadedModule = LoadedModule(base: nat, size: nat)

  /** The library's globals: `native_config` (null before `init`), whether each hook
      has been installed, and the unary-call hook's captured header size. */
  datatype NativeState = NativeState(
    config: Option<NativeConfig>,
    fstatHooked: bool,
    unaryCallHooked: bool,
    unaryCall: UnaryCall.HookState)

  /** The state after `JNI_OnLoad`: natives registered, nothing else done. */
  const Loaded: NativeState := NativeState(None, false, false, UnaryCall.Unset)

  /** A hook never runs without a configuration to read, and the unary-call hook is
      only ever installed together with the `fstat` hook. */
  ghost predicate Invariant(st: NativeState)
  {
    && (st.fstatHooked ==> st.config.Some?)
    && (st.unaryCallHooked ==> st.fstatHooked)
  }

  /** `init`: allocate a fresh configuration; with libclient loaded, hook `fstat`, and
      hook the unary call when the signature scan found it (`scanResult != 0`). */
  function Init(st: NativeState, client: LoadedModule, scanResult: nat): (r: NativeState)
    ensures r.config == Some(Default)
    ensures client.base == 0 ==>
              r.fstatHooked == st.fstatHooked && r.unaryCallHooked == st.unaryCallHooked
    ensures client.base != 0 ==> r.fstatHooked
    ensures r.unaryCallHooked <==> st.unaryCallHooked || (client.base != 0 && scanResult != 0)
    ensures r.unaryCall == st.unaryCall
    ensures Invariant(st) ==> Invariant(r)
  {
    var st' := st.(config := Some(Default));
    if client.base == 0 then
      st'
    else
      var hooked := st'.(fstatHooked := true);
      if scanResult != 0 then hooked.(unaryCallHooked := true) else hooked
  }

  /** `load_config`: overwrite the configuration from the managed object. The source
      dereferences `native_config`, so `init` must have run. */
  function LoadConfig(st: NativeState, obj: ConfigObject): (r: NativeState)
    requires st.config.Some?
    ensures r.config.Some?
    ensures r.config.value.disableBitmoji == obj.disableBitmoji
    ensures r.config.value.disableMetrics == obj.disableMetrics
    ensures r.fstatHooked == st.fstatHooked && r.unaryCallHooked == st.unaryCallHooked
    ensures r.unaryCall == st.unaryCall
    ensures Invariant(st) ==> Invariant(r)
  {
    st.(config := Some(Load(st.config.value, obj)))
  }

  /** A call of `fstat` in the process: through the hook once installed, otherwise
      the original directly. */
  function Fstat(st: NativeState, path: string, originalResult: int): (e: FileStatus.Effect)
    requires Invariant(st)
    ensures !st.fstatHooked ==> e == FileStatus.Direct(originalResult)
    ensures st.fstatHooked ==> e == FileStatus.Hook(st.config.value, path, originalResult)
  {
    if st.fstatHooked then FileStatus.Hook(st.config.value, path, originalResult)
    else FileStatus.Direct(originalResult)
  }

  /** The library state after a send, and what the hook did with it. */
  datatype Sent = Sent(state: NativeState, step: UnaryCall.Step)

  /** A call of the unary-call send function: through the hook once installed,
      otherwise forwarded untouched without consulting the callback. */
  function UnaryCallSend(st: NativeState, uri: string, buf: SliceBuffer, onUnaryCall: UnaryCall.Callback)
    : (r: Sent)
    requires st.unaryCallHooked && buf.refCounted ==> buf.Valid()
    ensures !st.unaryCallHooked ==> r.state == st && r.step == UnaryCall.Step(st.unaryCall, [], UnaryCall.Forwarded(buf))
    ensures st.unaryCallHooked ==> r.step == UnaryCall.Hook(st.unaryCall, uri, buf, onUnaryCall)
    ensures r.state == st.(unaryCall := r.step.state)
    ensures Invariant(st) ==> Invariant(r.state)
  {
    var step :=
      if st.unaryCallHooked then UnaryCall.Hook(st.unaryCall, uri, buf, onUnaryCall)
      else UnaryCall.Step(st.unaryCall, [], UnaryCall.Forwarded(buf));
    Sent(st.(unaryCall := step.state), step)
  }

  /** Before `init`, nothing is intercepted. */
  lemma NothingInterceptedBeforeInit(path: string, originalResult: int, uri: string, buf: SliceBuffer,
                                     onUnaryCall: UnaryCall.Callback)
    ensures Invariant(Loaded)
    ensures Fstat(Loaded, path, originalResult) == FileStatus.Direct(originalResult)
    ensures UnaryCallSend(Loaded, uri, buf, onUnaryCall).step.callbacks == []
    ensures UnaryCallSend(Loaded, uri, buf, onUnaryCall).step.outcome == UnaryCall.Forwarded(buf)
  {
  }

  /** Without libclient, `init` returns before installing either hook, so even with
      both switches on every `fstat` reaches the original. */
  lemma NoClientNoHooks(size: nat, scanResult: nat, obj: ConfigObject, path: string,
                        originalResult: int)
    ensures var st := LoadConfig(Init(Loaded, LoadedModule(0, size), scanResult), obj);
            && Invariant(st)
            && !st.fstatHooked && !st.unaryCallHooked
            && Fstat(st, path, originalResult) == FileStatus.Direct(originalResult)
  {
  }

  /** The whole path of the metrics switch: after `init` finds libclient and the
      configuration disables metrics, `fstat` on a metrics queue file deletes it and
      fails, whether or not the unary-call signature was found. */
  lemma MetricsSwitchEndToEnd(client: LoadedModule, scanResult: nat, disableBitmoji: bool,
                              dir: string, rest: string, originalResult: int)
    requires client.base != 0
    ensures var st := LoadConfig(Init(Loaded, client, scanResult), ConfigObject(disableBitmoji, true));
            var path := dir + FileStatus.MetricsQueueMarker + rest;
            Fstat(st, path, originalResult) == FileStatus.Effect(FileStatus.FailResult, Some(path), false)
  {
    var st := LoadConfig(Init(Loaded, client, scanResult), ConfigObject(disableBitmoji, true));
    FileStatus.MetricsQueueFileDeleted(st.config.value, dir, rest, originalResult);
  }
}
