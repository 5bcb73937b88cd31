# SnapEnhance native interception layer, in Dafny

This project models the native library of SnapEnhance (`native/jni/src/library.cpp`).
The library runs inside the messaging app's process, and its logic comes down to four decisions:

- **`fstat_hook`** replaces libc's `fstat`. Depending on two configuration switches and the
  path the descriptor resolves to, it deletes a metrics-queue file and fails, hides a
  Bitmoji content file by failing, or calls the original `fstat`.
- **`unaryCall_hook`** replaces the gRPC unary-call send function. It shows the outgoing
  request to the managed callback `onNativeUnaryCall`. Then it either forwards the request
  untouched, drops it (returns null without sending), or rebuilds the slice buffer around a
  replacement payload and forwards that.
- **`init`** allocates the configuration and installs the hooks. Which hooks it installs
  depends on whether `libclient.so` was found and whether the signature scan succeeded.
- **`load_config`** overwrites the configuration from the managed `NativeConfig` object.

Memory is modelled as byte sequences. The reference-counter block of a slice is
`block: seq<byte>`. The data pointer is the offset `dataOffset` into that block
(`data - ref_counter`). The model assumes gRPC's slice layout, in which the payload
follows the counter header inside one block, so `dataOffset + length <= |block|`. The function-local
static `ref_counter_struct_size` is `UnaryCall.HookState`. It is unset until the first
rewrite, which captures the buffer's own offset, and is reused unchanged afterwards. A
later buffer may have a smaller block than the captured size. Copying the header would
then read past the block, and that case is the explicit outcome `HeaderOverrun`.

Modules:
- `Optional`: the `Option` type.
- `Substrings`: `std::string::find`, proved against an independent "occurs at `i`" definition.
- `Config`: the configuration record.
- `FileStatus`: the `fstat` hook.
- `SliceBuffers`: the slice buffer and its rebuild.
- `UnaryCall`: the unary-call hook and the captured header size.
- `NativeLib`: `init`, `load_config` and call dispatch.

Notes on what `library.cpp` does:
- When `libclient.so` is not found, `init` returns before hooking `fstat` as well as the
  unary call.
- `init` is not idempotent. Each call allocates a fresh, default configuration.
- A callback that returns a non-canceled object always leads to a rebuild, even when the
  replacement equals the original bytes. `UnaryCall.Hook` states this.
- A denied `fstat` returns -1. The code sets no particular error code.

## Model

| member | source | states |
|---|---|---|
| Substrings.IndexOfFrom | native/jni/src/library.cpp:26 | the linear scan behind `find` returns an index where the fragment occurs with no earlier occurrence from the start point, and returns none only when no occurrence exists |
| Substrings.IndexOf | native/jni/src/library.cpp:26 | `find` returns the first occurrence, and returns `npos` exactly when the fragment occurs nowhere |
| Substrings.Contains | native/jni/src/library.cpp:33 | `find(...) != npos` holds exactly when some index has the fragment occurring there |
| Substrings.ContainsInContext | native/jni/src/library.cpp:26 | an occurrence is still found whatever directories or suffixes surround it |
| Substrings.ContainsOwnOccurrence | native/jni/src/library.cpp:26 | any path of the form prefix + fragment + suffix contains the fragment |
| Config.Load | native/jni/src/library.cpp:145-151 | `load_config` sets `disable_bitmoji` and `disable_metrics` to the managed object's two fields |
| Config.LoadForgetsPrevious | native/jni/src/library.cpp:149-150 | the loaded record does not depend on the previous one, and a second load wins over the first |
| FileStatus.Decide | native/jni/src/library.cpp:24-37 | the decision table: unlink-and-fail exactly when the metrics rule applies; fail exactly when the metrics rule does not apply and the Bitmoji rule does; call the original otherwise |
| FileStatus.Hook | native/jni/src/library.cpp:16-38 | metrics rule: returns -1, unlinks the path, original not called; Bitmoji rule (metrics rule not firing): returns -1, no unlink, original not called; neither: the original's result, no unlink |
| FileStatus.SwitchesOffPassThrough | native/jni/src/library.cpp:25-37 | with both switches off the hook is identical to calling the original |
| FileStatus.UnlinkOnlyByMetricsRule | native/jni/src/library.cpp:24-37 | a file is deleted exactly when the metrics rule applies, and then it is the resolved path; when the original is not called the result is -1, otherwise it is the original's result |
| FileStatus.UnmarkedPathPassesThrough | native/jni/src/library.cpp:25-37 | a path holding neither fragment always reaches the original, whatever the switches |
| FileStatus.MetricsQueueFileDeleted | native/jni/src/library.cpp:24-29 | with metrics disabled, any path containing `files/blizzardv2/queues` is deleted and reported as failing, before the Bitmoji rule is considered |
| FileStatus.BitmojiFileHidden | native/jni/src/library.cpp:31-35 | with Bitmoji disabled and metrics enabled, any path containing `com.snap.file_manager_4_SCContent` fails without being deleted |
| SliceBuffers.Rebuild | native/jni/src/library.cpp:85-101 | the new block is the first header-size bytes of the old block followed by the replacement; data points just past the header; length is the replacement's length; the payload read back is the replacement |
| SliceBuffers.RebuildKeepsHeader | native/jni/src/library.cpp:86-92 | with the buffer's own header size, the rebuilt buffer's counter header equals the old one byte for byte |
| SliceBuffers.RebuildTwice | native/jni/src/library.cpp:86-101 | two rewrites with the same header size equal one rewrite with the last payload |
| SliceBuffers.RebuildSamePayload | native/jni/src/library.cpp:86-101 | rebuilding a tight buffer around its own payload gives back the same buffer |
| UnaryCall.Hook | native/jni/src/library.cpp:47-105 | null ref_counter: callback not invoked, buffer forwarded untouched; otherwise the callback is invoked exactly once with the uri and payload; null answer: forwarded untouched; canceled: dropped, original not called; replacement: header size captured once, rebuilt buffer (old header prefix, replacement payload, new length) forwarded; overrun exactly when a stale captured size exceeds the block |
| UnaryCall.CapturedSizeIsStable | native/jni/src/library.cpp:86-87 | once `ref_counter_struct_size` is set, no sequence of later calls changes it, whatever the callback answers on each call |
| UnaryCall.CapturedOnFirstRewrite | native/jni/src/library.cpp:86-87 | from process start, the static holds the data offset of the first request rewritten by the callback's answer at that call, and stays unset until some request is rewritten; the callback may answer differently from call to call |
| UnaryCall.MatchingHeaderIsPreserved | native/jni/src/library.cpp:86-101 | when the buffer's header size equals the captured one, a rewrite forwards a buffer whose header equals the original header |
| NativeLib.Init | native/jni/src/library.cpp:108-143 | a fresh default configuration; libclient missing: no hook installed; found: `fstat` hooked; unary call hooked exactly when the scan returned nonzero; the hook invariant is preserved |
| NativeLib.LoadConfig | native/jni/src/library.cpp:145-151 | the configuration takes both fields of the managed object; installed hooks and the captured header size are unchanged |
| NativeLib.Fstat | native/jni/src/library.cpp:130-131 | `fstat` goes through the hook, with the current configuration, exactly when the hook is installed |
| NativeLib.UnaryCallSend | native/jni/src/library.cpp:136-137 | the send goes through the hook exactly when it is installed; otherwise it is forwarded untouched without the callback; only the captured header size changes |
| NativeLib.NothingInterceptedBeforeInit | native/jni/src/library.cpp:153-171 | after library load and before `init`, `fstat` and the unary call reach their originals untouched, for any buffer |
| NativeLib.NoClientNoHooks | native/jni/src/library.cpp:121-125 | without libclient no hook is installed, so `fstat` passes through even with both switches on |
| NativeLib.MetricsSwitchEndToEnd | native/jni/src/library.cpp:121-131 | after `init` finds libclient and metrics are disabled, `fstat` on a metrics queue file deletes it and fails, whether or not the scan succeeded |

## Left out

- Descriptor resolution: the `snprintf` of `/proc/self/fd/<fd>` and the `readlink` call are not modelled. The hook takes the resolved path as input. The 256-byte buffer, the missing NUL terminator of `readlink` and a failing `readlink` are not modelled either.
- Real effects: `unlink` is recorded in `FileStatus.Effect.unlinked` and the original `fstat` is its result value. The `struct stat` it fills and `errno` are not modelled.
- `util::get_module`, `util::load_library` and `util::find_signature` (the module locator and signature scanner) live in util.cpp, which is not part of this model. The module base and the scan result are inputs to `NativeLib.Init`. The byte pattern is not modelled.
- Dobby inline hooking and symbol resolution are foreign calls. An installed hook is a boolean. The model assumes `DobbyHook` succeeds, as the code does. A second `init` leaves installed hooks installed.
- JNI plumbing is not modelled: `GetEnv`, the byte-array and string marshalling, field and method lookups, global references and `RegisterNatives`. The callback is a total Dafny function and its answer is an `Option<RequestData>`.
- Callback exceptions, a null `buffer` field in a non-canceled answer, and `malloc` failure are not modelled. The code has no handling for any of them.
- NativeLib.LoadConfig: does not model `load_config` called before `init`. `native_config` is only assigned by `init` (native/jni/src/library.cpp:111), so the source dereferences a null pointer at native/jni/src/library.cpp:149-150; the model requires `init` to have run.
- UnaryCall.Hook: does not model a counted slice whose data pointer does not lie after the counter header inside the same block. The pointer subtraction at native/jni/src/library.cpp:87 would then wrap; the model requires gRPC's layout (`dataOffset + length <= |block|`).
- NativeLib.UnaryCallSend: requires the slice layout of `UnaryCall.Hook` only when the unary-call hook is installed, because only then does the pointer subtraction run; an unhooked send forwards any buffer.
- UnaryCall.Hook: does not model the narrowing of the `size_t` length to `jsize`. Payloads of 2^31 bytes or more are outside the model.
- Freeing the old block is not modelled. The rebuilt buffer simply replaces it.
- Logging and concurrent access to the global configuration are not modelled.
- Initial configuration: `init` allocates `native_config_t` without an initialiser. Its definition in config.h is not part of this model, so both switches are taken to start off.
