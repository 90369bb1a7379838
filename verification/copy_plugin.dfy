/**
  The plugin instance as a state record and its lifecycle entry points:
  `execute` (which issues the document-creation prompt), `onActivityResult`
  with `copyFromUri`, and the save/restore pair that carries a pending
  request across the recreation of the host process.
 */
module CopyPlugin {
  import opened Platform
  import opened UriResolver
  import opened StreamCopier

  const DefaultAction := "default"
  const FileRequestCode := 1001
  /** `Activity.RESULT_OK` and `Activity.RESULT_CANCELED`. */
  const ResultOk := -1
  const ResultCanceled := 0
  const CopyFailedPrefix := "Failed to copy due to an Exception: "
  const UserCancelled := "User Cancelled"
  const SrcKey := "src"
  const FileNameKey := "fileName"

  /** An opaque handle on the caller's result channel. */
  datatype Callback = Callback(id: nat)

  /** `callbackContext.success()` or `callbackContext.error(message)`. */
  datatype Outcome = Success | Error(message: string)

  /** What the plugin does to the outside world. */
  datatype Effect =
    | Prompt(title: Option<string>, mimeType: Option<string>)  // the document-creation prompt
    | Deliver(to: Callback, outcome: Outcome)

  /** The instance fields; `None` is Java's `null`. */
  datatype Plugin = Plugin(src: Option<string>, fileName: Option<string>, fileType: Option<string>,
                           callback: Option<Callback>)

  /** A freshly constructed instance. */
  const Fresh := Plugin(None, None, None, None)

  /** The result of one entry point: the new fields, what was done to the
      outside world, and the exception escaping to the host, if any. */
  datatype Step = Step(plugin: Plugin, effects: seq<Effect>, escaped: Option<Exc>)

  /** `execute` returns a flag unless an exception escapes it. */
  datatype Execution = Execution(step: Step, accepted: bool)

  /** Nothing was delivered to any callback. */
  predicate Silent(effects: seq<Effect>)
  {
    forall i :: 0 <= i < |effects| ==> !effects[i].Deliver?
  }

  /** A terminal step taken from `before`: the stored callback ends cleared,
      nothing else is delivered, and unless an exception escaped, the callback
      that was stored received exactly one outcome. */
  predicate Terminal(before: Plugin, s: Step)
  {
    && s.plugin == before.(callback := None)
    && (s.escaped.Some? ==> s.effects == [])
    && (s.escaped.None? ==>
          && before.callback.Some?
          && |s.effects| == 1
          && s.effects[0].Deliver?
          && s.effects[0].to == before.callback.value)
  }

  /** Hand `o` to the stored callback and clear it; with no callback stored
      the call dereferences null. */
  function Answer(p: Plugin, o: Outcome): (r: Step)
    ensures Terminal(p, r)
    ensures p.callback.Some? ==> r.effects == [Deliver(p.callback.value, o)]
    ensures r.escaped.Some? <==> p.callback.None?
  {
    match p.callback
    case Some(cb) => Step(p.(callback := None), [Deliver(cb, o)], None)
    case None => Step(p, [], Some(NullDeref))
  }

  /** `execute(action, args, callbackContext)`, including the call of
      `copyToDownloads`, which issues the prompt carrying the file name and
      MIME type. `launch` is the exception `startActivityForResult` throws
      (no activity handles the prompt, say), or `None` when it starts. */
  function Execute(p: Plugin, action: string, args: seq<string>, cb: Callback, launch: Option<Exc>): (r: Execution)
    ensures r.accepted <==> action == DefaultAction && |args| >= 3 && launch.None?
    ensures Silent(r.step.effects)
    ensures action != DefaultAction ==> r.step == Step(p, [], None)
    ensures action == DefaultAction && |args| >= 3 ==>
              && r.step.plugin.callback == Some(cb)
              && r.step.plugin.src == Some(args[0])
              && r.step.plugin.fileName == Some(args[1])
              && r.step.plugin.fileType == Some(args[2])
    ensures r.accepted ==>
              && r.step.escaped.None?
              && r.step.effects == [Prompt(Some(args[1]), Some(args[2]))]
    ensures action == DefaultAction && |args| >= 3 && launch.Some? ==>
              r.step.escaped == launch && r.step.effects == []
    ensures action == DefaultAction && |args| < 3 ==>
              && r.step.escaped == Some(MissingArgument)
              && r.step.effects == []
              && r.step.plugin.src == (if |args| >= 1 then Some(args[0]) else p.src)
              && r.step.plugin.fileName == (if |args| >= 2 then Some(args[1]) else p.fileName)
              && r.step.plugin.fileType == p.fileType
              && r.step.plugin.callback == p.callback
  {
    if action != DefaultAction then
      Execution(Step(p, [], None), false)
    else if |args| < 3 then
      // getString throws on the first missing index, after the earlier fields were set
      var withSrc := if |args| > 0 then p.(src := Some(args[0])) else p;
      var withName := if |args| > 1 then withSrc.(fileName := Some(args[1])) else withSrc;
      Execution(Step(withName, [], Some(MissingArgument)), false)
    else
      // the fields, the callback included, are stored before the prompt is launched
      var q := Plugin(Some(args[0]), Some(args[1]), Some(args[2]), Some(cb));
      match launch
      case None => Execution(Step(q, [Prompt(q.fileName, q.fileType)], None), true)
      case Some(e) => Execution(Step(q, [], Some(e)), false)
  }

  /** The outcome `copyFromUri` reports for an exception: an `IOException`
      becomes an error message; anything else is not caught. */
  function Report(p: Plugin, thrown: Option<Exc>): (r: Step)
    ensures r.plugin == p.(callback := None)
    ensures Terminal(p, r)
    ensures p.callback.Some? && thrown.None? ==> r.effects == [Deliver(p.callback.value, Success)]
    ensures forall m :: p.callback.Some? && thrown == Some(IOError(m)) ==>
              r.effects == [Deliver(p.callback.value, Error(CopyFailedPrefix + m))]
    ensures thrown.Some? && !thrown.value.IOError? ==> r.escaped == thrown && r.effects == []
    ensures p.callback.None? ==> r.escaped.Some? && r.effects == []
  {
    match thrown
    case None => Answer(p, Success)
    case Some(IOError(m)) => Answer(p, Error(CopyFailedPrefix + m))
    case Some(e) => Step(p.(callback := None), [], Some(e))
  }

  /** The destination slot `copyToStream` receives when opening it did not throw. */
  function DestinationStream(dest: Attempt<Sink>): Option<Sink>
  {
    if dest.Ok? then Some(dest.stream) else None
  }

  /** The exception `copyFromUri`'s `try` block ends with, if any: opening the
      destination, or else the copy from the source to it. */
  function CopyFault(p: Plugin, dest: Attempt<Sink>, env: Env<InStream>): Option<Exc>
  {
    if dest.Threw? then Some(dest.error)
    else Copy(Resolve(p.src, env), DestinationStream(dest)).thrown
  }

  /** `copyFromUri(uri)`, where `dest` is what opening an output stream on the
      chosen document yielded. */
  function CopyFromUri(p: Plugin, dest: Attempt<Sink>, env: Env<InStream>): (r: Step)
    ensures Terminal(p, r)
    ensures p.callback.Some? && CopyFault(p, dest, env).None? ==>
              r.effects == [Deliver(p.callback.value, Success)]
    ensures forall m :: p.callback.Some? && CopyFault(p, dest, env) == Some(IOError(m)) ==>
              r.effects == [Deliver(p.callback.value, Error(CopyFailedPrefix + m))]
    ensures r.escaped.Some? <==> p.callback.None? || (CopyFault(p, dest, env).Some? && !CopyFault(p, dest, env).value.IOError?)
  {
    Report(p, CopyFault(p, dest, env))
  }

  /** `onActivityResult(requestCode, resultCode, intent)`. `intent` is `None`
      for a null intent; otherwise it holds what opening an output stream on
      `intent.getData()` yields. `env` stands for the source-side facilities. */
  function OnActivityResult(p: Plugin, requestCode: int, resultCode: int, intent: Option<Attempt<Sink>>,
                            env: Env<InStream>): (r: Step)
    ensures requestCode != FileRequestCode || (resultCode != ResultOk && resultCode != ResultCanceled) ==>
              r == Step(p, [], None)
    ensures requestCode == FileRequestCode && resultCode == ResultOk && intent.None? ==>
              r == Step(p, [], Some(NullDeref))
    ensures requestCode == FileRequestCode && ((resultCode == ResultOk && intent.Some?) || resultCode == ResultCanceled) ==>
              Terminal(p, r)
    ensures requestCode == FileRequestCode && resultCode == ResultOk && intent.Some? ==>
              r == CopyFromUri(p, intent.value, env)
    ensures requestCode == FileRequestCode && resultCode == ResultCanceled && p.callback.Some? ==>
              r.effects == [Deliver(p.callback.value, Error(UserCancelled))] && r.escaped.None?
    ensures p.callback.None? ==> Silent(r.effects)
  {
    if requestCode == FileRequestCode then
      if resultCode == ResultOk then
        match intent
        case None => Step(p, [], Some(NullDeref))  // intent.getData() before copyFromUri's try
        case Some(dest) => CopyFromUri(p, dest, env)
      else if resultCode == ResultCanceled then Answer(p, Error(UserCancelled))
      else Step(p, [], None)
    else Step(p, [], None)
  }

  /** The state bundle: `Bundle.putString` keys to possibly-null strings. */
  type Bundle = map<string, Option<string>>

  /** `Bundle.getString`: null for a missing key. */
  function GetString(b: Bundle, key: string): Option<string>
  {
    if key in b then b[key] else None
  }

  /** `onSaveInstanceState`. */
  function OnSaveInstanceState(p: Plugin): (b: Bundle)
    ensures b.Keys == {SrcKey, FileNameKey}
  {
    map[SrcKey := p.src, FileNameKey := p.fileName]
  }

  /** `onRestoreStateForActivityResult(state, callbackContext)` as written: the
      two saved fields come back and the callback handed in is dropped. */
  function OnRestoreAsWritten(p: Plugin, state: Bundle, cb: Callback): (r: Plugin)
    ensures r.src == GetString(state, SrcKey) && r.fileName == GetString(state, FileNameKey)
    ensures r.fileType == p.fileType && r.callback == p.callback
  {
    p.(src := GetString(state, SrcKey), fileName := GetString(state, FileNameKey))
  }

  /** `onRestoreStateForActivityResult` keeping the callback it is handed, so
      the pending result can still be answered. */
  function OnRestore(p: Plugin, state: Bundle, cb: Callback): (r: Plugin)
    ensures r.src == GetString(state, SrcKey) && r.fileName == GetString(state, FileNameKey)
    ensures r.fileType == p.fileType && r.callback == Some(cb)
  {
    OnRestoreAsWritten(p, state, cb).(callback := Some(cb))
  }

  /** Restoring from a snapshot recovers exactly the saved `src` and
      `fileName`; the MIME type is not carried over, and the callback is the
      restoring instance's own (as written) or the one handed in (corrected). */
  lemma SnapshotRoundTrip(p: Plugin, q: Plugin, cb: Callback)
    ensures OnRestoreAsWritten(q, OnSaveInstanceState(p), cb) == Plugin(p.src, p.fileName, q.fileType, q.callback)
    ensures OnRestore(q, OnSaveInstanceState(p), cb) == Plugin(p.src, p.fileName, q.fileType, Some(cb))
  {
  }

  /** The snapshot depends on `src` and `fileName` alone. */
  lemma SnapshotCarriesOnlySourceAndName(p: Plugin, q: Plugin)
    requires p.src == q.src && p.fileName == q.fileName
    ensures OnSaveInstanceState(p) == OnSaveInstanceState(q)
  {
  }

  /** Once an OK result carrying an intent, or a CANCELED result, has
      cleared the callback, a stray later result delivers nothing. */
  lemma LateResultDeliversNothing(p: Plugin, code: int, result: int, intent: Option<Attempt<Sink>>,
                                  env: Env<InStream>, code2: int, result2: int,
                                  intent2: Option<Attempt<Sink>>, env2: Env<InStream>)
    requires code == FileRequestCode && ((result == ResultOk && intent.Some?) || result == ResultCanceled)
    ensures var first := OnActivityResult(p, code, result, intent, env);
      Silent(OnActivityResult(first.plugin, code2, result2, intent2, env2).effects)
  {
  }

  /** An OK result with a null intent fails before `copyFromUri`, so the
      callback survives it undelivered, and a later CANCELED still answers it. */
  lemma NullIntentKeepsCallback(p: Plugin, cb: Callback, intent2: Option<Attempt<Sink>>, env: Env<InStream>)
    requires p.callback == Some(cb)
    ensures var first := OnActivityResult(p, FileRequestCode, ResultOk, None, env);
      && first.effects == []
      && first.escaped == Some(NullDeref)
      && first.plugin.callback == Some(cb)
      && OnActivityResult(first.plugin, FileRequestCode, ResultCanceled, intent2, env).effects
           == [Deliver(cb, Error(UserCancelled))]
  {
  }

  /** A delivered success means the destination received the source's whole
      payload: opening the destination did not throw, the source opened and
      reached its end, and every byte was written. A destination opened as
      null still reports success when the source is empty. */
  lemma SuccessMeansWholeCopy(p: Plugin, dest: Attempt<Sink>, env: Env<InStream>, cb: Callback)
    ensures CopyFromUri(p, dest, env).effects == [Deliver(cb, Success)] ==>
      var source := Resolve(p.src, env);
      && !dest.Threw?
      && source.Ok?
      && Eof in source.stream.results
      && Copy(source, DestinationStream(dest)).written == Payload(source.stream.results)
      && (dest.Null? ==> Payload(source.stream.results) == [])
  {
  }

  /** A destination that fails its `k`-th write with message `m`, fed a
      source with more than `k` bytes, makes the copy report exactly
      "Failed to copy due to an Exception: " followed by `m`. */
  lemma WriteFailureReported(p: Plugin, cb: Callback, src: InStream, out: Sink, env: Env<InStream>)
    requires p.callback == Some(cb)
    requires Resolve(p.src, env) == Ok(src)
    requires out.accepts.Some? && out.accepts.value < |Payload(src.results)|
    ensures CopyFromUri(p, Ok(out), env) == Step(p.(callback := None), [Deliver(cb, Error(CopyFailedPrefix + out.writeError))], None)
  {
  }

  /** A source whose reads run out before -1 makes the copy report its read
      error, prefixed the same way, when the destination takes every byte. */
  lemma ReadFailureReported(p: Plugin, cb: Callback, src: InStream, out: Sink, env: Env<InStream>)
    requires p.callback == Some(cb)
    requires Resolve(p.src, env) == Ok(src)
    requires Eof !in src.results && out.accepts.None?
    ensures CopyFromUri(p, Ok(out), env) == Step(p.(callback := None), [Deliver(cb, Error(CopyFailedPrefix + src.readError))], None)
  {
  }

  /** A request followed by the user's cancellation answers the request's
      callback once, with "User Cancelled". */
  lemma RequestThenCancel(p: Plugin, args: seq<string>, cb: Callback, intent: Option<Attempt<Sink>>,
                          env: Env<InStream>)
    requires |args| >= 3
    ensures var req := Execute(p, DefaultAction, args, cb, None).step;
      var res := OnActivityResult(req.plugin, FileRequestCode, ResultCanceled, intent, env);
      && res.effects == [Deliver(cb, Error(UserCancelled))]
      && res.escaped.None?
      && res.plugin.callback.None?
  {
  }

  /** A request whose source and destination both behave answers the request's
      callback once, with success. */
  lemma RequestThenCopy(p: Plugin, args: seq<string>, cb: Callback, src: InStream, out: Sink, env: Env<InStream>)
    requires |args| >= 3
    requires Resolve(Some(args[0]), env) == Ok(src) && Eof in src.results
    requires out.accepts.None?
    ensures var req := Execute(p, DefaultAction, args, cb, None).step;
      var res := OnActivityResult(req.plugin, FileRequestCode, ResultOk, Some(Ok(out)), env);
      && res.effects == [Deliver(cb, Success)]
      && res.escaped.None?
      && res.plugin.callback.None?
  {
  }

  /** A second request before the first is answered replaces it: whatever the
      result, and whether or not either prompt launched, the first callback is
      never answered. */
  lemma SecondRequestOrphansFirst(p: Plugin, args1: seq<string>, cb1: Callback, launch1: Option<Exc>,
                                  args2: seq<string>, cb2: Callback, launch2: Option<Exc>,
                                  code: int, result: int, intent: Option<Attempt<Sink>>, env: Env<InStream>)
    requires |args1| >= 3 && |args2| >= 3 && cb1 != cb2
    ensures var first := Execute(p, DefaultAction, args1, cb1, launch1).step;
      var second := Execute(first.plugin, DefaultAction, args2, cb2, launch2).step;
      var res := OnActivityResult(second.plugin, code, result, intent, env);
      forall i :: 0 <= i < |res.effects| ==> res.effects[i] == Deliver(cb2, res.effects[i].outcome)
  {
  }

  /** A CANCELED result the host sends while the second request is launching
      arrives after the second callback was stored (line 84 precedes the
      launch), so it answers the second callback, not the first, and clears
      it; the second prompt's own result then finds no callback and is lost. */
  lemma HostCancelDuringSecondRequest(p: Plugin, args1: seq<string>, cb1: Callback, args2: seq<string>, cb2: Callback,
                                      dest: Attempt<Sink>, env: Env<InStream>)
    requires |args1| >= 3 && |args2| >= 3
    ensures var first := Execute(p, DefaultAction, args1, cb1, None).step;
      var stored := Execute(first.plugin, DefaultAction, args2, cb2, None).step.plugin;
      var cancel := OnActivityResult(stored, FileRequestCode, ResultCanceled, None, env);
      var late := OnActivityResult(cancel.plugin, FileRequestCode, ResultOk, Some(dest), env);
      && cancel.effects == [Deliver(cb2, Error(UserCancelled))]
      && cancel.plugin.callback.None?
      && late.effects == []
      && late.escaped.Some?
  {
  }

  /** As written, a result arriving after the host process was recreated
      reaches an instance whose callback is null: the callback handed to the
      restore is dropped, so the result is never answered. */
  lemma RestoredResultIsLostAsWritten(saved: Plugin, cb: Callback, result: int, intent: Option<Attempt<Sink>>,
                                      env: Env<InStream>)
    requires result == ResultOk || result == ResultCanceled
    ensures var restored := OnRestoreAsWritten(Fresh, OnSaveInstanceState(saved), cb);
      var res := OnActivityResult(restored, FileRequestCode, result, intent, env);
      && res.effects == []
      && res.escaped.Some?
      && (result == ResultCanceled ==> res.escaped == Some(NullDeref))
  {
  }

  /** With the callback kept, the same result, carrying the chosen document,
      is answered exactly once, to the callback handed to the restore, and the
      copy reads the saved source. */
  lemma RestoredResultIsAnswered(saved: Plugin, cb: Callback, result: int, dest: Attempt<Sink>,
                                 env: Env<InStream>)
    requires result == ResultOk || result == ResultCanceled
    ensures var restored := OnRestore(Fresh, OnSaveInstanceState(saved), cb);
      var res := OnActivityResult(restored, FileRequestCode, result, Some(dest), env);
      && restored.src == saved.src
      && res.plugin.callback.None?
      && (res.escaped.None? ==> |res.effects| == 1 && res.effects[0].to == cb)
      && (result == ResultCanceled ==> res.effects == [Deliver(cb, Error(UserCancelled))])
      && (result == ResultOk && CopyFault(restored, dest, env).None? ==> res.effects == [Deliver(cb, Success)])
  {
  }
}
