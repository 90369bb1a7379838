# CopyToDownloads plugin — a Dafny model

A Dafny model of the Android side of the Cordova plugin that copies a file,
named by a URI string, into a document the user chooses through the system's
document-creation prompt. The plugin is one class,
`src/android/CopyToDownloadsPlugin.java`; three parts of it are modelled:

- **Source resolution** (`UriResolver`, `uri_resolver.dfy`):
  `getInputStreamFromUriString` as a classifier from the source string to one
  of four ways of opening it (`Content`, `Asset`, `ContentThenPath`,
  `PlainPath`), the query stripping on the `file://` branch, and the opening
  itself against abstract platform facilities (`Env`: content resolver, asset
  store, real-path helper, literal-path `FileInputStream`). Each facility
  yields an `Attempt`: a stream, `null`, or an exception.
- **The byte copy** (`StreamCopier`, `stream_copier.dfy`): `copyToStream` as a
  loop over the values `read()` returns (a byte, or -1 at the end), writing
  each byte before the end to the destination, and `closeQuietly`, which
  releases both streams on every path and swallows close failures. A
  declarative `Copy` states what one copy does; the loop `CopyToStream` is
  proved to agree with it on every input.
- **The callback lifecycle** (`CopyPlugin`, `copy_plugin.dfy`): the instance
  fields `src`, `fileName`, `fileType` and `callbackContext` as a record,
  and the entry points `execute` (which issues the prompt), `onActivityResult`
  with `copyFromUri`, `onSaveInstanceState` and
  `onRestoreStateForActivityResult`. Every entry point returns the new record,
  the effects on the outside world (the prompt, outcomes delivered to a
  callback) and the exception that escapes to the host, if any.

`Platform` (`platform.dfy`) holds the Java pieces the three share: nullable
references (`Option`), exceptions (`IOError` for `IOException`, `NotIO`
for everything `copyFromUri` does not catch), `Attempt`, `startsWith` and
`indexOf`.

The plugin has no permission flow: `WRITE_PERMISSION_REQUEST_CODE` (line 54)
is declared and never used. It has no direct write into a Downloads path and
no file naming of its own: `execute` always issues the document-creation
prompt, and the only state is the four fields. `onRestoreStateForActivityResult`
takes a `callbackContext` parameter (line 183) that its body never uses (lines
184-186), which is the subject of the finding below.

Four consequences of the source are modelled rather than assumed away:

- A content resolver may return `null` on the `content` branch. The source
  does not check for it, so `is.read()` dereferences null. That
  `NullPointerException` is not an `IOException`, so it escapes
  `copyFromUri` and no outcome is delivered, though the callback is still
  cleared.
- A missing callback turns `success()` or `error(...)` into a null
  dereference too.
- A RESULT_OK with a null intent fails at `intent.getData()` (line 193)
  before `copyFromUri` is entered, so the callback is kept and nothing is
  delivered.
- `execute` stores the callback (line 84) before it launches the prompt
  (line 101). When the launch throws (no activity handles the prompt), the
  exception escapes `execute` and the callback stays stored, unanswered.

The lifecycle contracts therefore say this: a CANCELED result, and an OK
result carrying an intent, are terminal. They clear the callback and deliver
at most one outcome, and they deliver exactly one unless an exception escapes
to the host.

## Model

| member | source | states |
|---|---|---|
| Platform.IndexOf | src/android/CopyToDownloadsPlugin.java:121 | `indexOf("?")` is -1 exactly when there is no `?`, and otherwise the position of the first one |
| UriResolver.StripQuery | src/android/CopyToDownloadsPlugin.java:121-124 | the result is the prefix of the string before its first `?`: it has no `?`, it is the whole string when there is none, and a `?` follows it otherwise |
| UriResolver.Classify | src/android/CopyToDownloadsPlugin.java:116-142 | `content`-prefixed strings (bare token, no `://` needed) go to the content resolver as is. The asset store is chosen exactly for `file://` strings whose query-free form starts with `file:///android_asset/`, and the asset path is what follows that prefix. Other `file://` strings keep only their query-free form. Every other string is a literal path, unchanged |
| UriResolver.ClassifyIsWellFormed | src/android/CopyToDownloadsPlugin.java:116-142 | every classification produced lies in the four disjoint shapes `WellFormed` names (no query left on a `file://` result, no asset prefix on the fallback branch) |
| UriResolver.ClassifyToUri | src/android/CopyToDownloadsPlugin.java:116-142 | round trip: classifying the string a well-formed classification stands for returns that classification |
| UriResolver.ToUriClassify | src/android/CopyToDownloadsPlugin.java:116-142 | round trip: the string a source is classified as stands for is the source itself, with only a `file://` query removed |
| UriResolver.QueryIsIgnored | src/android/CopyToDownloadsPlugin.java:120-125 | for a `file://` string nothing from the first `?` onward affects the classification |
| UriResolver.Fallback | src/android/CopyToDownloadsPlugin.java:131-138 | the first attempt's stream is used when it opened; the second attempt is used exactly when the first threw or gave null, and any failure reported is the second's |
| UriResolver.Resolve | src/android/CopyToDownloadsPlugin.java:114-144 | a null source string throws a null dereference; a `content` string is opened by the content resolver and a literal path by `FileInputStream`, on the string unchanged; an asset URI is opened from the asset store at its query-free form minus `file:///android_asset/`; any other `file://` URI, query removed, goes to the content resolver and, exactly when that threw or gave null, to the real-path `FileInputStream` |
| UriResolver.ContentOpenedAsIs | src/android/CopyToDownloadsPlugin.java:117-119 | any string starting with `content` is opened by the content resolver as given, with no query stripping |
| UriResolver.AssetOpenedByRelativePath | src/android/CopyToDownloadsPlugin.java:125-128 | an asset URI is opened from the asset store at the query-free string minus `file:///android_asset/`, which is the URI path with its first 15 characters removed |
| UriResolver.FileUriFallsBackToPath | src/android/CopyToDownloadsPlugin.java:129-138 | any other `file://` URI is opened by the content resolver when that yields a stream, and by the real-path `FileInputStream` otherwise |
| StreamCopier.CloseQuietly | src/android/CopyToDownloadsPlugin.java:104-112 | a null stream stays absent and is not closed; any other ends closed; the `IOException` a failing `close()` throws is caught, so no exception comes out |
| StreamCopier.Payload | src/android/CopyToDownloadsPlugin.java:150-151 | the data a stream yields is its longest prefix without -1: -1 follows it unless the reads ran out |
| StreamCopier.Copy | src/android/CopyToDownloadsPlugin.java:146-158 | Both streams end released, and a stream that was opened ends closed. The bytes written are a prefix of the source's data. The copy succeeds exactly when the source opened, reached -1 and the destination took every byte, and then the output equals the data. A failed open is rethrown as is and a null source is a null dereference. A write failure ends it with the destination's `IOException` after exactly the accepted bytes, or with a null dereference for a null destination. Reads that run out end it with the source's `IOException` after the whole data |
| StreamCopier.CopyToStream | src/android/CopyToDownloadsPlugin.java:146-158 | the read/stop-at-(-1)/write loop followed by the two quiet closes computes exactly what `Copy` states, for every source attempt and destination |
| StreamCopier.PayloadOfTerminated | src/android/CopyToDownloadsPlugin.java:150-151 | the copy loop stops exactly at the first -1: the data of `data + [-1] + rest` is `data` |
| StreamCopier.CopyDeliversData | src/android/CopyToDownloadsPlugin.java:146-158 | round trip: a stream of `data` then -1, copied into a destination that takes every write, succeeds with output `data`, both streams closed |
| StreamCopier.CloseFailuresSwallowed | src/android/CopyToDownloadsPlugin.java:154-157 | whether either `close()` throws changes neither the output, nor the exception, nor the released slots, because `closeQuietly` catches it in the `finally` block |
| CopyPlugin.Answer | src/android/CopyToDownloadsPlugin.java:164-169 | the stored callback receives the one outcome and is cleared; with none stored the call is a null dereference and nothing is delivered |
| CopyPlugin.Execute | src/android/CopyToDownloadsPlugin.java:79-102 | `true` is returned exactly for `default` with three arguments when the prompt launches. With three arguments it stores `src`, `fileName`, `fileType` and the callback from arguments 0-2, and then issues the prompt with that name and MIME type; when launching the prompt throws, that exception escapes, no prompt is issued, and the fields and callback stay stored. Any other action returns false and changes nothing. Too few arguments throw a `JSONException` after storing `src` and `fileName` when present, leaving `fileType` and the callback as they were. No outcome is ever delivered |
| CopyPlugin.Report | src/android/CopyToDownloadsPlugin.java:163-169 | no exception delivers success, an `IOException` delivers the error "Failed to copy due to an Exception: " plus its message, any other exception escapes undelivered, and a null callback delivers nothing; the callback is cleared in every case |
| CopyPlugin.CopyFromUri | src/android/CopyToDownloadsPlugin.java:160-171 | The step is terminal: the callback ends cleared and nothing else changes. It delivers one success when the destination opened and the copy succeeded. An `IOException` gives one error with the fixed prefix and its message. An escape happens exactly when no callback is stored or the exception is not an `IOException` |
| CopyPlugin.OnActivityResult | src/android/CopyToDownloadsPlugin.java:189-200 | Other request codes, and result codes other than OK/CANCELED, change nothing. OK with a null intent throws a null dereference and changes nothing, the callback included. OK with an intent is exactly `copyFromUri` on the destination it names, and it and CANCELED are terminal. CANCELED with a callback delivers exactly `error("User Cancelled")`. With no callback stored nothing is ever delivered |
| CopyPlugin.OnSaveInstanceState | src/android/CopyToDownloadsPlugin.java:173-179 | the snapshot holds exactly the two keys `src` and `fileName` |
| CopyPlugin.OnRestoreAsWritten | src/android/CopyToDownloadsPlugin.java:182-187 | restore as written: `src` and `fileName` come from the bundle (null when missing), `fileType` and the stored callback are kept, and the callback handed in is dropped |
| CopyPlugin.OnRestore | src/android/CopyToDownloadsPlugin.java:182-187 | corrected restore: as written, but the callback handed in becomes the stored callback |
| CopyPlugin.SnapshotRoundTrip | src/android/CopyToDownloadsPlugin.java:173-187 | restoring a snapshot, by the restore as written and by the corrected one, recovers exactly the saved `src` and `fileName`; `fileType` is the restoring instance's own, and so is the callback as written |
| CopyPlugin.SnapshotCarriesOnlySourceAndName | src/android/CopyToDownloadsPlugin.java:173-179 | two instances that agree on `src` and `fileName` save the same snapshot, whatever their MIME type and callback |
| CopyPlugin.LateResultDeliversNothing | src/android/CopyToDownloadsPlugin.java:190-198 | after an OK result carrying an intent or a CANCELED result, any further result delivers no outcome: a callback is answered at most once |
| CopyPlugin.NullIntentKeepsCallback | src/android/CopyToDownloadsPlugin.java:192-195 | an OK result with a null intent delivers nothing, throws a null dereference and keeps the callback, which a later CANCELED then answers with "User Cancelled" |
| CopyPlugin.SuccessMeansWholeCopy | src/android/CopyToDownloadsPlugin.java:160-164 | a delivered success implies opening the destination did not throw, the source opened and reached its end, and the destination received the source's whole data; a destination opened as null can report success only for an empty source |
| CopyPlugin.WriteFailureReported | src/android/CopyToDownloadsPlugin.java:151-166 | a destination whose write fails with message `m` before the source's data is through makes the request's callback receive exactly "Failed to copy due to an Exception: " + `m`, and it is cleared |
| CopyPlugin.ReadFailureReported | src/android/CopyToDownloadsPlugin.java:151-166 | a source whose reads fail before -1 makes the request's callback receive exactly the prefixed read error, when the destination takes every byte, and it is cleared |
| CopyPlugin.RequestThenCancel | src/android/CopyToDownloadsPlugin.java:190-197 | a request followed by CANCELED answers the request's callback once, with "User Cancelled", and clears it |
| CopyPlugin.RequestThenCopy | src/android/CopyToDownloadsPlugin.java:160-171 | a request followed by OK, with a source that ends and a destination that takes every write, answers the request's callback once with success and clears it |
| CopyPlugin.SecondRequestOrphansFirst | src/android/CopyToDownloadsPlugin.java:79-90 | a second request before the first is answered replaces it, whether or not either prompt launched: any later result answers only the second callback |
| CopyPlugin.HostCancelDuringSecondRequest | src/android/CopyToDownloadsPlugin.java:79-101 | a CANCELED result arriving while the second request launches its prompt finds the second callback already stored: it answers that callback with "User Cancelled" and clears it, and the second prompt's real result then delivers nothing and escapes as an exception |
| CopyPlugin.RestoredResultIsLostAsWritten | src/android/CopyToDownloadsPlugin.java:182-187 | as written, an OK or CANCELED result reaching a restored fresh instance delivers nothing and escapes as an exception |
| CopyPlugin.RestoredResultIsAnswered | src/android/CopyToDownloadsPlugin.java:182-187 | with the corrected restore, an OK result carrying the chosen document, or a CANCELED result, is delivered to the callback handed to the restore: once, and as "User Cancelled" or success when those apply, with the saved source |

## Left out

- Permission requests, the direct write into a Downloads path, and collision-free file naming are not modelled. The source has none of them. `WRITE_PERMISSION_REQUEST_CODE` (line 54) is declared but never used.
- Building the document-creation intent (lines 92-102) is modelled only as the `Prompt` effect with its title and MIME type. The `ACTION_CREATE_DOCUMENT`/`CATEGORY_OPENABLE` flags and the initial Downloads location are platform data.
- The Android and Cordova facilities are left out and appear as oracles. These are `ContentResolver.openInputStream`/`openOutputStream`, `AssetManager.open`, and `FileHelper.getRealPathFromURI` with `FileInputStream`. `startActivityForResult` appears only as the exception its launch may throw, the `launch` argument of `Execute`. `Env` holds the source-side facilities. The intent argument of `OnActivityResult` is `None` for a null intent; otherwise an `Attempt<Sink>` stands for `openOutputStream(intent.getData())`, and a null `getData()` shows up there as a thrown exception.
- `Env` lets the asset store and both `FileInputStream` facilities return null. The real calls never do; only `openInputStream` (lines 119 and 132) can. The model is more general than the source there, and every property holds for the real facilities too.
- SecondRequestOrphansFirst: assumes `startActivityForResult` does not call back into the plugin. The Cordova host may answer a still-pending activity with `onActivityResult(code, RESULT_CANCELED, null)` when a new one starts. Because line 84 has already stored the second callback, that CANCELED answers the second callback with "User Cancelled" at once and clears it, and the second prompt's real result is then lost; HostCancelDuringSecondRequest states this from the stored state. The first callback is never answered either way. The host's own timing is not part of this model.
- `Uri.parse(s).getPath()` is modelled as the text after `file://`. Percent-decoding, fragments and authorities are not modelled.
- JSON argument marshalling is not modelled. Arguments are a sequence of strings, and a missing one is a `JSONException`. JSON values that are not strings are not modelled.
- Logging and `printStackTrace` are left out because they have no observable effect on the state or the callback.
- The base class's `onActivityResult` and `onRestoreStateForActivityResult` are not modelled because they do nothing. `CordovaPlugin` is not part of this model.
- Streams are modelled in a reduced form. Reads either return values or throw an `IOException`, writes throw only `IOException`s, and `close()` failures are `IOException`s. Other exceptions from a stream are not modelled. `getMessage()` is a plain string, with no null case.
- Sources that never end or that block are not modelled: every `InStream` returns -1 or throws after finitely many reads, so `Copy` and `CopyToStream` always finish. A stream that yields bytes forever (a character device named as a literal path, an endless provider stream) would keep the loop at lines 151-153 running forever, since the source has no timeout.
- Concurrency and process death are not modelled beyond the save/restore round trip.

## Findings

| source | as written | input that shows it | evidently intended | confidence | as-written member | corrected member |
|---|---|---|---|---|---|---|
| src/android/CopyToDownloadsPlugin.java:182-187 | `onRestoreStateForActivityResult` ignores its `callbackContext` argument, so a recreated instance keeps a null callback | a request, then recreation of the host process while the prompt is open, then restore with a fresh callback, then RESULT_CANCELED (or OK): `this.callbackContext.error(...)` (or `success()`) dereferences null and the caller never gets an outcome | the callback handed to the restore is stored, so the pending result is answered exactly once | not executed; high | CopyPlugin.OnRestoreAsWritten (shown by CopyPlugin.RestoredResultIsLostAsWritten) | CopyPlugin.OnRestore (proved by CopyPlugin.RestoredResultIsAnswered) |
