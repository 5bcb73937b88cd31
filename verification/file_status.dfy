/** `fstat_hook`: the replacement for libc's `fstat`. The descriptor has already been
    resolved to a path (through `/proc/self/fd/<fd>`); the hook decides from the
    configuration and two fixed path fragments whether to delete the file and fail,
    to fail, or to call the original `fstat`. */
module FileStatus {
  import opened Optional
  import opened Substrings
  import opened Config

  /** Fragment of the paths of the metrics queue files. */
  const MetricsQueueMarker: string := "files/blizzardv2/queues"

  /** Fragment of the paths of the Bitmoji content files. */
  const BitmojiMarker: string := "com.snap.file_manager_4_SCContent"

  /** The value the hook returns instead of calling the original. */
  const FailResult: int := -1

  /** The three rows of the decision table. */
  datatype Action = UnlinkAndFail | Fail | CallOriginal

  /** The metrics rule applies to `path` under `cfg`. */
  ghost predicate MetricsRule(cfg: NativeConfig, path: string)
  {
    cfg.disableMetrics && exists i :: OccursAt(path, MetricsQueueMarker, i)
  }

  /** The Bitmoji rule applies to `path` under `cfg`. */
  ghost predicate BitmojiRule(cfg: NativeConfig, path: string)
  {
    cfg.disableBitmoji && exists i :: OccursAt(path, BitmojiMarker, i)
  }

  /** The decision table, metrics rule first. */
  function Decide(cfg: NativeConfig, path: string): (a: Action)
    ensures a == UnlinkAndFail <==> MetricsRule(cfg, path)
    ensures a == Fail <==> !MetricsRule(cfg, path) && BitmojiRule(cfg, path)
    ensures a == CallOriginal <==> !MetricsRule(cfg, path) && !BitmojiRule(cfg, path)
  {
    if cfg.disableMetrics && Contains(path, MetricsQueueMarker) then UnlinkAndFail
    else if cfg.disableBitmoji && Contains(path, BitmojiMarker) then Fail
    else CallOriginal
  }

  /** What one call of the hook did: the value it returned, the path it unlinked
      (if any), and whether it called the original `fstat`. */
  datatype Effect = Effect(result: int, unlinked: Option<string>, originalCalled: bool)

  /** The effect of calling the original `fstat` directly: its result, nothing deleted. */
  function Direct(originalResult: int): (e: Effect)
  {
    Effect(originalResult, None, true)
  }

  /** One call of `fstat_hook` on a descriptor resolving to `path`, where
      `originalResult` is what the original `fstat` returns for that descriptor. */
  function Hook(cfg: NativeConfig, path: string, originalResult: int): (e: Effect)
    ensures MetricsRule(cfg, path) ==> e == Effect(FailResult, Some(path), false)
    ensures !MetricsRule(cfg, path) && BitmojiRule(cfg, path) ==> e == Effect(FailResult, None, false)
    ensures !MetricsRule(cfg, path) && !BitmojiRule(cfg, path) ==> e == Direct(originalResult)
  {
    match Decide(cfg, path)
    case UnlinkAndFail => Effect(FailResult, Some(path), false)
    case Fail => Effect(FailResult, None, false)
    case CallOriginal => Direct(originalResult)
  }

  /** With both switches off the hook is indistinguishable from the original. */
  lemma SwitchesOffPassThrough(path: string, originalResult: int)
    ensures Hook(Default, path, originalResult) == Direct(originalResult)
  {
  }

  /** Only the metrics rule deletes anything, and it deletes the resolved path itself;
      whenever the original is not called, the hook returns the failure value. */
  lemma UnlinkOnlyByMetricsRule(cfg: NativeConfig, path: string, originalResult: int)
    ensures Hook(cfg, path, originalResult).unlinked.Some? <==> MetricsRule(cfg, path)
    ensures Hook(cfg, path, originalResult).unlinked.Some? ==>
              Hook(cfg, path, originalResult).unlinked.value == path
    ensures !Hook(cfg, path, originalResult).originalCalled ==>
              Hook(cfg, path, originalResult).result == FailResult
    ensures Hook(cfg, path, originalResult).originalCalled ==>
              Hook(cfg, path, originalResult).result == originalResult
  {
  }

  /** A path naming neither fragment is never intercepted, whatever the switches. */
  lemma UnmarkedPathPassesThrough(cfg: NativeConfig, path: string, originalResult: int)
    requires !Contains(path, MetricsQueueMarker) && !Contains(path, BitmojiMarker)
    ensures Hook(cfg, path, originalResult) == Direct(originalResult)
  {
  }

  /** Any file below a metrics queue directory is deleted and reported missing when
      metrics are disabled, even when the Bitmoji rule would also apply. */
  lemma MetricsQueueFileDeleted(cfg: NativeConfig, dir: string, rest: string, originalResult: int)
    requires cfg.disableMetrics
    ensures Hook(cfg, dir + MetricsQueueMarker + rest, originalResult)
              == Effect(FailResult, Some(dir + MetricsQueueMarker + rest), false)
  {
    ContainsOwnOccurrence(dir, MetricsQueueMarker, rest);
  }

  /** Any Bitmoji content file is reported missing, but kept, when Bitmoji is disabled
      and metrics are not. */
  lemma BitmojiFileHidden(cfg: NativeConfig, dir: string, rest: string, originalResult: int)
    requires cfg.disableBitmoji && !cfg.disableMetrics
    ensures Hook(cfg, dir + BitmojiMarker + rest, originalResult) == Effect(FailResult, None, false)
  {
    ContainsOwnOccurrence(dir, BitmojiMarker, rest);
  }
}
