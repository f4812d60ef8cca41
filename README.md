# mizu: real-time chat and todos, tRPC gate, repository CLI, generators and logger

This project is a Dafny model of the parts of the mizu monorepo that have behaviour worth stating. It also proves properties of that model.

- **Chat fan-out.** The chat event bus is an ordered listener registry. `emitMessage` calls every listener in registration order. The handle that `subscribeToMessages` returns removes the listener it added.
- **Chat subscription stream.** The `onMessage` generator has two identical copies, in the studio and the minato `trpc` packages. Its steps:
  - it yields the snapshot as `init` with id `"0"`;
  - it registers a listener that pushes onto a FIFO queue;
  - on every 100 ms pass it checks the abort flag and then drains the queue, giving each message the next id;
  - its `finally` unsubscribes.
  The stream is a class with the generator's state: `eventId`, the queue, whether it is subscribed, and everything it has yielded. It is proved against `ChatRun`, a function of the snapshot and of the interleaving of publications and passes.
- **Todo polling stream.** It yields `sync` with id `"0"`, then one `update` with a fresh full list per 3 s pass until aborted. A failed fetch ends the stream.
- **Chat send mutation.** It publishes on the bus exactly when the insert returned a record.
- **Client reducers.** The chat page's `onData` appends a message unless its id is already cached, and tracks the connection status. The todos page replaces its cache with each item. The todo and chat handlers build their mutation arguments.
- **tRPC gate.** This covers `createContext`, the `protectedProcedure` check, and the logging middleware passing results and errors through unchanged.
- **Repository CLI.** This covers:
  - the `.env` line parser;
  - `--app` parsing;
  - `main`'s dispatch and exit code;
  - the `logs`, `test` and `test:e2e` command lines;
  - `rename` and `rename:preview`, which check the scope, replace `@temp-repo` and count occurrences;
  - the package scope.
- **Turbo generators.** This covers `pascalCase`, `camelCase` and `constantCase`, name validation, the template folder and the idempotent workspace insertion.
- **Logger.** This covers the colours for statuses, durations and methods, `formatValue`, the level prefix with its fallback, and the extra-field filtering of `messageFormat`.
- **Studio config.** This covers `isEnabled`, the social providers' `enabled` flags and `getEnabledAuthMethods`.

The generator's clock, timers and abort signal are explicit inputs. The database, the file system and the shell are inputs too: an insert result, a fetched list, the lines of a file, the apps found on disk. Strings are `seq<char>`.

Module layout:

- `Common`, `Text`, `Decimal`, `Domain` (common.dfy, text.dfy, decimal.dfy, domain.dfy): `Option`/`Result`; JavaScript's `split`, `join`, `replaceAll`, `trim` and `indexOf` on strings; `String(n)`; the chat, todo and user records.
- `ChatEvents` (chat_events.dfy): the bus class.
- `ChatSubscription` (chat_subscription.dfy): the chat stream class.
- `Fanout` (fanout.dfy): publishing to every open stream through the bus.
- `ChatRun` (chat_run.dfy): a whole connection, and the method that drives bus and stream through it.
- `TodoSubscription` (todo_subscription.dfy): the todo stream class and its run.
- `ChatMutations` (chat_mutations.dfy): `sendMessage`.
- `ChatClient`, `TodosClient` (chat_client.dfy, todos_client.dfy): the page reducers and handlers.
- `TrpcInit`, `AuthQueries`, `StudioConfig` (trpc_init.dfy, auth_queries.dfy, studio_config.dfy): the context, the gate and the enabled providers.
- `EnvFile`, `Apps`, `Scope`, `CliMain`, `LogsCommand`, `TestCommand`, `Rename` (env_file.dfy, apps.dfy, scope.dfy, cli_main.dfy, logs_command.dfy, test_command.dfy, rename.dfy): the CLI.
- `Generators` (generators.dfy): the turbo generator helpers.
- `Logger` (logger.dfy): the pretty-printer's formatting.

## Model

| member | source | states |
|---|---|---|
| ChatEvents.ChatEventEmitter.constructor | packages/studio/service/src/chat/events.ts:15 | the shared bus starts with no listener |
| ChatEvents.ChatEventEmitter.SubscribeToMessages | packages/studio/service/src/chat/events.ts:9-11 | the callback is added once, at the end; the other listeners keep their order; the handle removes that callback |
| ChatEvents.ChatEventEmitter.Release | packages/studio/service/src/chat/events.ts:11 | calling the handle removes the last registration of its callback and nothing else |
| ChatEvents.ChatEventEmitter.EmitMessage | packages/studio/service/src/chat/events.ts:5-7 | one call per registered listener, in registration order, each with exactly the emitted message |
| ChatEvents.RemoveLast | packages/studio/service/src/chat/events.ts:11 | `off` on an absent callback changes nothing; on a present one the list loses exactly one entry |
| ChatEvents.RemoveLastMultiset | packages/studio/service/src/chat/events.ts:11 | `off` removes exactly one registration: the multiset of listeners loses one copy of the callback |
| ChatEvents.RemoveLastAt | packages/studio/service/src/chat/events.ts:11 | when the last registration is at position i, `off` cuts out exactly position i |
| ChatEvents.RemoveRegisteredOnce | packages/studio/service/src/chat/events.ts:10-11 | with distinct listeners, removing one leaves the others in order, the removed one absent, and the list still distinct |
| ChatEvents.SubscribeThenUnsubscribe | packages/studio/service/src/chat/events.ts:9-11 | subscribing and then calling the handle restores the listener list |
| ChatEvents.UnsubscribeTwice | packages/studio/service/src/chat/events.ts:11 | calling the handle a second time changes nothing |
| ChatSubscription.MessagesOfNumbered | packages/studio/trpc/src/routers/chat/subscriptions.ts:26-29 | the `message` items a drain yields carry exactly the queued messages, in queue order |
| ChatSubscription.ChatStream.constructor | packages/studio/trpc/src/routers/chat/subscriptions.ts:10 | a new stream has yielded nothing, queued nothing and is not subscribed |
| ChatSubscription.ChatStream.Start | packages/studio/trpc/src/routers/chat/subscriptions.ts:15-16 | a successful snapshot fetch yields exactly `init` with id "0" and the snapshot; a failed one ends the stream with nothing yielded and no listener registered |
| ChatSubscription.ChatStream.Listen | packages/studio/trpc/src/routers/chat/subscriptions.ts:19-20 | the listener is registered after the snapshot, with an empty queue and nothing delivered before it |
| ChatSubscription.ChatStream.Deliver | packages/studio/trpc/src/routers/chat/subscriptions.ts:20 | the listener pushes the message at the end of the queue; nothing yielded changes |
| ChatSubscription.ChatStream.Tick | packages/studio/trpc/src/routers/chat/subscriptions.ts:23-31 | an abort seen after the sleep ends the stream, yields nothing and unsubscribes; otherwise the whole queue is yielded in FIFO order with the next consecutive ids, and the queue is empty afterwards; the invariant `Valid` (consecutive ids, snapshot first, delivered = yielded + queued) is kept |
| ChatSubscription.ChatStream.Close | packages/studio/trpc/src/routers/chat/subscriptions.ts:33-35 | the `finally`: the stream is done and its listener is removed from the bus if it was registered |
| ChatSubscription.DrainKeepsInvariant | packages/studio/trpc/src/routers/chat/subscriptions.ts:26-29 | draining onto a stream with consecutive ids keeps the ids consecutive and appends the drained messages in order |
| ChatSubscription.IdsDistinct | packages/studio/trpc/src/routers/chat/subscriptions.ts:16 | no two yielded items share an id |
| Fanout.Publish | packages/studio/service/src/chat/events.ts:5-7 | publishing calls every listener in order; every subscribed stream's queue gains the message exactly once, at its end, and unsubscribed streams are untouched |
| Fanout.RunListeners | packages/studio/service/src/chat/events.ts:6 | running the listeners in registration order delivers the message once to each stream whose listener is registered |
| Fanout.DeliverAt | packages/studio/trpc/src/routers/chat/subscriptions.ts:20 | one listener call changes only its own stream's queue |
| Fanout.PublishToOne | packages/studio/trpc/src/routers/chat/subscriptions.ts:20 | with one connection, publishing queues the message on it and yields nothing yet |
| Fanout.OpenConnection | packages/studio/trpc/src/routers/chat/subscriptions.ts:10-20 | a fresh connection has yielded `init` "0", is subscribed with an empty queue, and is the bus's only listener |
| Fanout.TwoMessagesScenario | packages/studio/trpc/src/routers/chat/subscriptions.ts:16-29 | two publications, then a pass, yield `init` "0", `message` "1" and `message` "2" in publication order |
| Fanout.CancelScenario | packages/studio/trpc/src/routers/chat/subscriptions.ts:23-35 | an abort on the first pass yields only `init` and leaves the bus's listeners as they were |
| ChatRun.ChatRun | packages/minato/trpc/src/routers/chat/subscriptions.ts:15-16 | a connection yields nothing when the snapshot fetch throws, otherwise `init` "0" with the snapshot first |
| ChatRun.DrainsArePrefix | packages/minato/trpc/src/routers/chat/subscriptions.ts:20-29 | the yielded messages are an initial segment of the queued messages followed by the published ones: FIFO order, none yielded twice, none invented |
| ChatRun.DrainsNumbered | packages/minato/trpc/src/routers/chat/subscriptions.ts:29 | every drained item is a `message` whose id continues the count |
| ChatRun.DrainsStopAtAbort | packages/minato/trpc/src/routers/chat/subscriptions.ts:23-25 | nothing is yielded after a pass that sees the abort |
| ChatRun.ChatRunShape | packages/minato/trpc/src/routers/chat/subscriptions.ts:10-29 | the ids are "0", "1", "2", ...; every item after the first is a `message`; the messages are an initial segment of those published after the listener was registered, in publication order |
| ChatRun.Step | packages/minato/trpc/src/routers/chat/subscriptions.ts:20-31 | one publication or pass on the real bus and stream objects moves the state exactly as `ChatRun` says |
| ChatRun.Drive | packages/minato/trpc/src/routers/chat/subscriptions.ts:22-35 | the polling loop yields the drains that `ChatRun` predicts and always leaves the bus without the listener |
| ChatRun.RunChatStream | packages/minato/trpc/src/routers/chat/subscriptions.ts:9-39 | the generator on a fresh bus yields exactly `ChatRun(snapshot, events)` and always unsubscribes |
| TodoSubscription.TodoRun | packages/studio/trpc/src/routers/todos/subscriptions.ts:21-29 | nothing when the first fetch throws, otherwise `sync` "0" with the full initial list and its timestamp first |
| TodoSubscription.UpdatesShape | packages/studio/trpc/src/routers/todos/subscriptions.ts:32-43 | every later item is an `update` with the next id and the complete result of that pass's fetch, from a pass that neither aborted nor failed |
| TodoSubscription.UpdatesStopAt | packages/studio/trpc/src/routers/todos/subscriptions.ts:32-47 | a pass that sees the abort or whose fetch throws ends the stream: exactly the passes before it yield |
| TodoSubscription.UpdatesAll | packages/studio/trpc/src/routers/todos/subscriptions.ts:32-44 | without abort or failure every pass yields one update |
| TodoSubscription.TodoRunShape | packages/studio/trpc/src/routers/todos/subscriptions.ts:17-43 | the ids are consecutive from "0" and every item after the first is an `update` carrying its pass's full list |
| TodoSubscription.TodoStream.constructor | packages/studio/trpc/src/routers/todos/subscriptions.ts:17 | a new stream has yielded nothing |
| TodoSubscription.TodoStream.Start | packages/studio/trpc/src/routers/todos/subscriptions.ts:23-29 | a successful fetch yields `sync` "0"; a failed one ends the stream with nothing yielded |
| TodoSubscription.TodoStream.Tick | packages/studio/trpc/src/routers/todos/subscriptions.ts:32-47 | an abort or a failed fetch ends the stream with nothing yielded, and it is marked failed (rethrown) exactly when the fetch failed without an abort; otherwise one `update` with the next id and the fetched list |
| TodoSubscription.Drive | packages/studio/trpc/src/routers/todos/subscriptions.ts:32-44 | the polling loop yields exactly the updates `TodoRun` predicts |
| TodoSubscription.RunTodoStream | packages/studio/trpc/src/routers/todos/subscriptions.ts:16-51 | the generator yields exactly `TodoRun(initial, startedAt, polls)` |
| ChatMutations.SendRequest | packages/studio/trpc/src/routers/chat/mutations.ts:6-13 | rejected as unauthorized without a user and session, as a bad request unless the content has 1 to 2000 characters; otherwise the record to insert has the content and the signed-in user's id and name |
| ChatMutations.SendMessage | packages/studio/trpc/src/routers/chat/mutations.ts:6-18 | the guard and input check stop the call first; an insert that throws fails the mutation as an internal error and publishes nothing; otherwise the insert's result is returned unchanged, and it is published to every listener, in order, exactly when it is a record; each subscribed stream queues it once |
| ChatClient.AddMessage | apps/studio/src/components/chat-example.tsx:71-77 | a message whose id is cached leaves the list unchanged; a new one is appended at the end |
| ChatClient.AddMessageIdempotent | apps/studio/src/components/chat-example.tsx:71-77 | applying the same `message` twice gives the list of applying it once |
| ChatClient.AddMessageKeeps | apps/studio/src/components/chat-example.tsx:73-76 | afterwards the message's id is cached and the earlier messages are kept in order |
| ChatClient.AddMessageDistinct | apps/studio/src/components/chat-example.tsx:73-76 | distinct cached ids stay distinct |
| ChatClient.ApplyItem | apps/studio/src/components/chat-example.tsx:66-79 | `init` gives the snapshot; `message` leaves its id cached and keeps the earlier messages in order |
| ChatClient.ApplyAll | apps/studio/src/components/chat-example.tsx:66-79 | no item leaves the cache as it was; any item sets it; a stream ending in `init` leaves exactly that snapshot |
| ChatClient.ApplyAllDistinct | apps/studio/src/components/chat-example.tsx:66-79 | after any sequence of items whose snapshots have distinct ids, the cached ids are distinct |
| ChatClient.ChatView.constructor | apps/studio/src/components/chat-example.tsx:32-34 | the page starts `connecting` with nothing cached |
| ChatClient.ChatView.Mount | apps/studio/src/components/chat-example.tsx:63 | the effect sets the status to `connecting` |
| ChatClient.ChatView.OnData | apps/studio/src/components/chat-example.tsx:66-79 | `init` replaces the cache with the snapshot and sets `connected`; `message` goes through the dedupe and keeps the status |
| ChatClient.ChatView.Disconnect | apps/studio/src/components/chat-example.tsx:80-89 | an error or the cleanup sets `disconnected` and keeps the cache |
| ChatClient.Receive | apps/studio/src/components/chat-example.tsx:62-79 | after a stream of items the page is `connected` exactly when an `init` arrived, and caches what the items build |
| ChatClient.SendGuard | apps/studio/src/components/chat-example.tsx:92-96 | a send happens exactly when someone is signed in and the input is not blank, and it sends the input as typed |
| TodosClient.CacheAfter | apps/studio/src/components/todos-example.tsx:66-71 | no item leaves the cache as it was; the cache is empty afterwards exactly when it was and no item arrived |
| TodosClient.CacheIsLastItem | apps/studio/src/components/todos-example.tsx:68-69 | after any items the cache is the last item's list |
| TodosClient.PageShowsLastFetch | apps/studio/src/components/todos-example.tsx:66-71 | over a whole todo stream the page shows the last successful fetch |
| TodosClient.CreateArgs | apps/studio/src/components/todos-example.tsx:82-90 | nothing is sent for a blank title; otherwise the title as typed, and the description or `undefined` when it is empty |
| TodosClient.ToggleArgs | apps/studio/src/components/todos-example.tsx:92-94 | the same todo id and the negated `completed` |
| TodosClient.ToggleTwice | apps/studio/src/components/todos-example.tsx:92-94 | toggling the toggled value gives back the original arguments |
| TodosClient.DeleteArgs | apps/studio/src/components/todos-example.tsx:96-98 | only the todo id is sent |
| TrpcInit.CreateContext | packages/studio/trpc/src/init.ts:41-57 | with no auth response both are null; otherwise the response's user and session unchanged, even when only one is present |
| TrpcInit.Protect | packages/studio/trpc/src/init.ts:96-102 | passes exactly when both user and session are present, with the same user and session; otherwise `UNAUTHORIZED` |
| TrpcInit.SignedInPasses | packages/studio/trpc/src/init.ts:96-101 | a response with a user and a session passes the gate with that user and session |
| TrpcInit.Logged | packages/studio/trpc/src/init.ts:60-90 | the middleware returns `next()`'s result or rethrows its error unchanged, and logs a completion or a failure with the duration |
| TrpcInit.CallProtected | packages/studio/trpc/src/init.ts:96-102 | an unauthenticated call throws `UNAUTHORIZED` before the procedure body runs; an authenticated one gets the body's outcome |
| TrpcInit.LoggedUnauthorized | packages/studio/trpc/src/init.ts:92-102 | the logging middleware wraps the guard: an unauthenticated call is rethrown as `UNAUTHORIZED` and logged as `✗ failed` with that error and its duration |
| AuthQueries.Me | packages/studio/trpc/src/routers/auth/queries.ts:5-7 | returns the context's user unchanged, and only through the gate |
| AuthQueries.EnabledAuthMethods | packages/studio/trpc/src/routers/auth/queries.ts:9-11 | at most one name per provider entry, and no name at all exactly when no provider is enabled |
| AuthQueries.EnabledIff | packages/studio/trpc/src/routers/auth/queries.ts:9-11 | a provider key is listed exactly when some entry with that key is enabled |
| AuthQueries.EnabledOrdered | packages/studio/trpc/src/routers/auth/queries.ts:9-11 | the result has no duplicates and is a subsequence of the keys, in entry order |
| AuthQueries.StudioMethods | packages/studio/trpc/src/routers/auth/queries.ts:9-11 | github, google and discord are each listed exactly when both their client id and secret are set and non-empty |
| StudioConfig.IsEnabled | packages/configs/studio-config/src/env.ts:3-5 | true exactly when every argument is defined and non-empty, so true for no arguments |
| StudioConfig.Provider | packages/configs/studio-config/src/env.ts:28-32 | enabled exactly when id and secret are both set and non-empty; an unset one reads as `''` |
| StudioConfig.SocialProviders | packages/configs/studio-config/src/env.ts:27-43 | the three providers, in order, each from its own two variables |
| StudioConfig.OriginList | packages/configs/studio-config/src/env.ts:12 | an unset variable gives `[]`; a set one gives pieces that join back with `,` to its value |
| StudioConfig.OriginListRoundTrip | packages/configs/studio-config/src/env.ts:26 | a variable holding comma-free origins joined with `,` is read back as those origins |
| EnvFile.ParseLine | packages/shared/cli/src/utils/shell.ts:22-38 | a line contributes only under a non-empty key |
| EnvFile.ParseLineKeyValue | packages/shared/cli/src/utils/shell.ts:23-37 | for a trimmed line that is not blank, not a comment and not `=`-led: the key is the text before the first `=`, the value the rest with later `=` kept and surrounding quotes stripped; no `=` gives the value `''` |
| EnvFile.SkippedLines | packages/shared/cli/src/utils/shell.ts:23-28 | a blank line, a line starting with `#` after trimming, and a line whose key is empty (`=` first) contribute nothing |
| EnvFile.ParseLineIff | packages/shared/cli/src/utils/shell.ts:23-28 | a line assigns exactly when its trimmed text is not blank, not a comment and does not start with `=` |
| EnvFile.QuoteRoundTrip | packages/shared/cli/src/utils/shell.ts:31-36 | exactly one pair of matching `"` or `'` is stripped |
| EnvFile.UnquotedKept | packages/shared/cli/src/utils/shell.ts:31-36 | a value that does not start with a quote is kept as is |
| EnvFile.LastAssignmentWins | packages/shared/cli/src/utils/shell.ts:37 | for a repeated key the last assignment wins |
| EnvFile.OnlyAssignedKeys | packages/shared/cli/src/utils/shell.ts:22-38 | every key in the result was assigned by some line |
| EnvFile.LoadEnvFile | packages/shared/cli/src/utils/shell.ts:14-42 | a missing file gives the empty map; otherwise the loop over the lines builds the fold of the parsed lines |
| EnvFile.AssignLine | packages/shared/cli/src/utils/shell.ts:23-37 | one pass of the loop: the record after the line is the record before it updated by what the line parses to |
| Apps.ParseAppArg | packages/shared/cli/src/utils/apps.ts:39-45 | the argument right after the first `--app`; nothing exactly when `--app` is absent or the first one is last |
| Apps.AppName | packages/shared/cli/src/commands/logs.ts:16-18 | a non-empty name is what `parseAppArg` returned; `""` exactly when it returned nothing or an empty argument |
| Apps.AppsIn | packages/shared/cli/src/utils/apps.ts:22-25 | a name is listed exactly when some entry of that name is a directory holding a `package.json`; never more names than entries |
| Apps.AvailableApps | packages/shared/cli/src/utils/apps.ts:14-26 | no app when `apps/` does not exist; otherwise exactly the entries that are directories with a `package.json` |
| Apps.ValidateAppIff | packages/shared/cli/src/utils/apps.ts:31-34 | `validateApp` is true exactly when `apps/` exists and holds a directory of that name with a `package.json` |
| Apps.AppDir | packages/shared/cli/src/utils/apps.ts:50-52 | the path lies under `<root>/apps/` and its last segment is the app name |
| Apps.AppPackageDir | packages/shared/cli/src/utils/apps.ts:57-59 | the path lies under `<root>/packages/` and its last segment is the app name |
| Apps.RepositoryDir | packages/shared/cli/src/utils/apps.ts:57-66 | the repository directory lies inside the app's package directory |
| Apps.AppDirInjective | packages/shared/cli/src/utils/apps.ts:50-52 | distinct apps get distinct directories |
| Apps.AppAndPackageDirsDiffer | packages/shared/cli/src/utils/apps.ts:50-59 | an app directory is never a package directory |
| Scope.PackageScope | packages/shared/cli/src/utils/scope.ts:8-9 | the scope always starts with `@` and holds no `/` |
| Scope.PackageScopeCases | packages/shared/cli/src/utils/scope.ts:9 | the text before the first `/` of a scoped name, the whole scoped name without `/`, `@mizu` otherwise |
| CliMain.Decide | packages/shared/cli/src/index.ts:74-92 | help exactly for no command, `help`, `--help` or `-h`; an unknown-command error exactly for a name not in the table; otherwise that handler with the arguments after the name |
| CliMain.DecideAsWritten | packages/shared/cli/src/index.ts:74-85 | as written: help exactly as intended; a handler runs exactly for a name in the table or inherited from `Object.prototype`, with the arguments after it |
| CliMain.InheritedNameRuns | packages/shared/cli/src/index.ts:80-81 | `toString` is not in the table, yet the lookup as written runs it as a handler |
| CliMain.DecideAgrees | packages/shared/cli/src/index.ts:80-85 | the lookup as written and the intended one agree on every name not inherited from `Object.prototype` |
| CliMain.ExitCode | packages/shared/cli/src/index.ts:75-92 | 0 after help, 1 for an unknown command, and for a handler 1 exactly when it threw |
| CliMain.MainExitCode | packages/shared/cli/src/index.ts:74-93 | with the intended lookup (`Decide`), `main` exits 0 exactly when help was asked for or a table command's handler finished; as written (`DecideAsWritten`), also when an `Object.prototype` name's "handler" does not throw |
| LogsCommand.FindPrefixed | packages/shared/cli/src/commands/logs.ts:31 | the first argument with the prefix, or nothing exactly when none has it |
| LogsCommand.OptionValue | packages/shared/cli/src/commands/logs.ts:32 | `split('=')[1]`: the text after the first `=` up to the next one |
| LogsCommand.ArgValue | packages/shared/cli/src/commands/logs.ts:31-34 | absent exactly when no argument starts with `<flag>=`; a value never holds `=` |
| LogsCommand.ArgValueRoundTrip | packages/shared/cli/src/commands/logs.ts:31-34 | the first `<flag>=<value>` is read back as `<value>` |
| LogsCommand.Tail | packages/shared/cli/src/commands/logs.ts:33-34 | the tail is never empty, `100` without a `--tail=`, otherwise the value given |
| LogsCommand.Service | packages/shared/cli/src/commands/logs.ts:31-32 | `""` when no argument starts with `--service=`; a non-empty service is the value of the first `--service=` |
| LogsCommand.LogsLineShape | packages/shared/cli/src/commands/logs.ts:30-52 | `docker compose -f <file> logs --tail=<n>`, then `-f` when following, then the service when one is named |
| LogsCommand.Logs | packages/shared/cli/src/commands/logs.ts:15-56 | a missing app, an unknown app and a missing compose file each stop the command; otherwise the command line |
| LogsCommand.ServiceGiven | packages/shared/cli/src/commands/logs.ts:31-32 | `--service=<name>` sets the service |
| LogsCommand.TailGiven | packages/shared/cli/src/commands/logs.ts:33-34 | `--tail=<n>` with a non-empty `<n>` sets the count |
| TestCommand.Extras | packages/shared/cli/src/commands/test.ts:10-11 | one `--watch` for `--watch` or `-w`, before one `--coverage` for `--coverage`, and nothing else |
| TestCommand.TestLineLayout | packages/shared/cli/src/commands/test.ts:14-33 | `turbo run test`, then `--filter <scope>/<app>...` when an app is given, then `--` and the vitest flags when there are any |
| TestCommand.FilterMarker | packages/shared/cli/src/commands/test.ts:16-24 | a `--filter` is on the line exactly when an app is given |
| TestCommand.DashMarker | packages/shared/cli/src/commands/test.ts:31-33 | a `--` is on the line exactly when there is a vitest flag |
| TestCommand.Test | packages/shared/cli/src/commands/test.ts:8-36 | an unknown app stops the command; otherwise the turbo line, run from the root |
| TestCommand.PlaywrightCommand | packages/shared/cli/src/commands/test.ts:57-64 | the pushes give `bunx playwright test` followed by `--headed`, `--ui` and `--debug`, in that order, each only when requested |
| TestCommand.PlaywrightFlags | packages/shared/cli/src/commands/test.ts:57-64 | each Playwright flag is on the line exactly when it was requested, after the three words of the command |
| TestCommand.TestE2e | packages/shared/cli/src/commands/test.ts:41-67 | a missing or unknown app stops the command; otherwise `bunx playwright test` with `--headed`, `--ui` and `--debug` in that order, each exactly when requested, run in the app directory |
| Rename.CheckScope | packages/shared/cli/src/commands/rename.ts:18-38 | a missing scope, a scope without `@` and a scope with other characters are rejected in that order; an accepted scope matches `^@[a-z0-9-]+$` |
| Rename.RenameProject | packages/shared/cli/src/commands/rename.ts:17-92 | a rejected scope writes nothing; otherwise the loop's counters and writes equal `RenameTotals` and `Writes` |
| Rename.RenameTotals | packages/shared/cli/src/commands/rename.ts:67-92 | at most one updated file per file scanned, and at least one counted occurrence per updated file |
| Rename.Writes | packages/shared/cli/src/commands/rename.ts:70-77 | only the paths of updated files are written |
| Rename.NoUpdatesIff | packages/shared/cli/src/commands/rename.ts:67-92 | no file is reported updated exactly when no file was read, changed and written |
| Rename.WritesOnlyUpdated | packages/shared/cli/src/commands/rename.ts:70-77 | only updated files are written, each with every occurrence of `@temp-repo` replaced |
| Rename.WrittenLength | packages/shared/cli/src/commands/rename.ts:73-84 | a written file changes length by the scope length difference once per counted occurrence |
| Rename.PreviewRename | packages/shared/cli/src/commands/rename.ts:117-165 | only a missing scope is rejected; otherwise the counters equal `PreviewTotals` |
| Rename.PreviewTotals | packages/shared/cli/src/commands/rename.ts:140-158 | at most one affected file per file scanned, and at least one occurrence per affected file |
| Rename.NoAffectedIff | packages/shared/cli/src/commands/rename.ts:140-158 | the preview reports no file exactly when no readable file holds a match |
| Rename.PreviewMatchesRename | packages/shared/cli/src/commands/rename.ts:67-84 | for a new scope and writable files, the preview reports the same totals as the rename |
| Rename.UpdatedIffAffected | packages/shared/cli/src/commands/rename.ts:73-77 | a writable file is written exactly when it holds a match, and then its count is its number of matches |
| Rename.RenameToCurrentScope | packages/shared/cli/src/commands/rename.ts:73-77 | renaming to `@temp-repo` itself writes and counts nothing |
| Text.ReplaceAll | packages/shared/cli/src/commands/rename.ts:73 | a text without the pattern is left unchanged |
| Text.Split | packages/shared/cli/src/utils/shell.ts:27 | one piece more than there are occurrences of the separator |
| Text.Trim | packages/shared/cli/src/utils/shell.ts:23 | no longer than the text, and neither starts nor ends with whitespace |
| Text.ReplaceAllChangesIff | packages/shared/cli/src/commands/rename.ts:73-75 | `replaceAll` with a different replacement changes the content exactly when the pattern occurs |
| Text.ReplaceAllLength | packages/shared/cli/src/commands/rename.ts:73-84 | the replaced content's length is the old length plus the count times the length difference |
| Text.ReplaceAllIsSplitJoin | packages/shared/cli/src/commands/rename.ts:73 | `replaceAll` is splitting on the pattern and joining with the replacement |
| Text.JoinSplit | packages/shared/cli/src/utils/shell.ts:27-29 | joining the pieces of a split back with the separator gives the original text |
| Text.TrimEmptyIff | packages/shared/cli/src/utils/shell.ts:23-25 | a trimmed text is empty exactly when it is all whitespace |
| Generators.SplitWords | turbo/generators/config.ts:17 | `split(/[-_\s]+/)`: the words hold no separator, only the first and last may be empty, a text starting with a word gives a non-empty first word, and the words put back together are the text with its separators taken out |
| Generators.Capitalize | turbo/generators/config.ts:18 | the first character upper-cased and the rest lower-cased, same length |
| Generators.PascalCase | turbo/generators/config.ts:15-20 | the text's characters other than `-`, `_` and whitespace, in order, with only their case changed; `PascalCaseOfWords` gives the exact pattern |
| Generators.PascalCaseOfWords | turbo/generators/config.ts:15-20 | for words joined by one separator, `pascalCase` is each word with its first character upper-cased and the rest lower-cased, concatenated in order |
| Generators.CamelCase | turbo/generators/config.ts:23-29 | `pascalCase` of the same text with its first character lower-cased and the rest unchanged; so the same letters, never starting with a capital |
| Generators.ConstantCase | turbo/generators/config.ts:32-37 | read back as the text's own words, each upper-cased; its characters other than `_` are the text's, upper-cased |
| Generators.PascalCaseNoSep | turbo/generators/config.ts:15-29 | `pascalCase` and `camelCase` hold no separator |
| Generators.CamelAndPascal | turbo/generators/config.ts:23-29 | for a text starting with a lower-case letter, `camelCase` and `pascalCase` differ only in the first character: the input's own letter against its capital |
| Generators.SplitJoinWords | turbo/generators/config.ts:17 | separator-free words, none empty inside, joined with any one of `-`, `_` or a whitespace character split back into those words; so a hyphenated name is split into its pieces |
| Generators.ConstantCaseIdempotent | turbo/generators/config.ts:32-37 | `constantCase` of a `constantCase` result changes nothing |
| Generators.ValidateName | turbo/generators/config.ts:50-58 | accepted exactly when the name matches `^[a-z][a-z0-9-]*$`; "required" exactly for a blank name; otherwise the format message |
| Generators.TemplateFolder | turbo/generators/config.ts:76 | `app-tanstack` exactly for `tanstack`, `app-hono` for anything else |
| Generators.WithWorkspace | turbo/generators/config.ts:150-158 | the workspace is appended at the end only when absent; existing entries and their order are kept |
| Generators.WithWorkspaceIdempotent | turbo/generators/config.ts:150-158 | inserting the same workspace twice is inserting it once |
| Generators.PackageJson.AddWorkspace | turbo/generators/config.ts:154-158 | the in-place `splice` leaves `workspaces` as `WithWorkspace` of the old list |
| Generators.Transform | turbo/generators/config.ts:150-161 | one entry more exactly when the workspace was absent; the old entries are a prefix; the workspace is present |
| Logger.StatusColor | packages/shared/logger/src/index.ts:32-38 | red from 500, yellow for 400-499, cyan for 300-399, green for 200-299, gray below |
| Logger.StatusColorByClass | packages/shared/logger/src/index.ts:32-38 | for a status from 100 to 599 the colour is the one of its class, its hundreds digit |
| Logger.DurationColor | packages/shared/logger/src/index.ts:66 | green below 100 ms, yellow below 500, red otherwise |
| Logger.MethodColor | packages/shared/logger/src/index.ts:79 | a colour exactly for the seven known methods, upper-cased; `''` otherwise |
| Logger.MethodColorIgnoresCase | packages/shared/logger/src/index.ts:79 | the method colour does not depend on the case of the method |
| Logger.DurationText | packages/shared/logger/src/index.ts:65-67 | a duration starts with its colour and ends with `ms` and the reset code |
| Logger.StatusText | packages/shared/logger/src/index.ts:74-75 | a status starts with its colour and ends with the reset code |
| Logger.FormatValue | packages/shared/logger/src/index.ts:63-87 | every coloured field ends with the reset code; path, status and method get their colours; other values are printed plainly |
| Logger.Prefix | packages/shared/logger/src/index.ts:98 | the fallback prefix `(・・)` exactly for an unknown level |
| Logger.ProductionLevel | packages/shared/logger/src/index.ts:175-177 | the production formatter keeps the label and falls back to `(・・)` for an unknown one |
| Logger.DevelopmentLevelKnown | packages/shared/logger/src/index.ts:97-98 | the development line never shows the fallback: an unknown level number reads as `info` |
| Logger.Extras | packages/shared/logger/src/index.ts:106-107 | the extra fields are exactly the fields with a non-standard key |
| Logger.MessageFormat | packages/shared/logger/src/index.ts:96-116 | the line starts with the header; the separator and the extra fields follow exactly when some field is not standard |
| Logger.ExtrasLengthen | packages/shared/logger/src/index.ts:109-114 | with extra fields the line is strictly longer than the header |
| Decimal.NatToStringInjective | packages/studio/trpc/src/routers/chat/subscriptions.ts:16 | `String(n)` gives distinct ids for distinct counts |

## Left out

- Timers, the abort signal, `Date.now()` and asynchronous suspension are inputs. A chat pass is a `Tick(abortedNow)`. A todo pass is a `Poll(aborted, fetched, now)`. Interleaving inside a pass, backpressure and the SSE transport are not modelled.
- ChatSubscription.ChatStream.Tick: the abort check at the loop head and the one after the sleep are merged into the one flag a pass sees. An abort that arrives in the middle of a drain takes effect at the next pass.
- ChatRun.ChatRun: messages still queued when the connection ends are never yielded. The model says so and does not model them further.
- A listener that throws inside `emitMessage` propagates to the publisher, and no isolation exists to model. The bus is passed as a parameter instead of being the module-level singleton. Every publisher and subscriber in the model uses the one bus given to it.
- The database and ORM (`getChatMessages`, `getTodos`, `createChatMessage`, the todo mutations) are inputs: a fetched list or `None` for a throw, and an insert function returning a record, `None`, or the message of the error it throws.
- Auth and JWT libraries, session lookup, React rendering, TanStack Query internals, pino streams, the time and level prettifiers, zod schemas and the tRPC router plumbing are not part of this model.
- Shell and OS plumbing (`run`, `process.exit`, printing, stdin, `glob`, `existsSync`, reading and writing files) is left out. The listing of `apps/`, whether a path exists, the glob's file list, file contents and whether a write succeeds are inputs.
- `validate.ts` is not part of this model: it compares versions with floating point and runs external commands.
- The minato `getEnabledAuthMethods` is left out: it reads a `socialProviders` key that the minato config schema does not define.
- Upper- and lower-casing are ASCII only. Whitespace for `trim` and `\s` is space, tab, newline, carriage return, vertical tab and form feed, not all of Unicode.
- `path.join` normalisation is not modelled. A path is its segments joined with `/`.
- ChatMutations.ValidContent counts characters as `seq<char>` elements, not zod's UTF-16 code units.
- Logger.FormatValue: numbers are integers. `JSON.stringify` is an input: an object value carries its JSON text. `String(value)` of floats, symbols and functions is not modelled.
- Logger.Prefix: the prefix table is looked up on a plain object, so a label such as `constructor` or `toString` would find an `Object.prototype` member instead of the fallback. The model gives such a label the fallback, because labels come only from pino's six level names.
- EnvFile.LoadEnvFile: a key such as `__proto__` is an ordinary key in the resulting map. In JavaScript, assigning it changes the record's prototype instead.
- Apps.AppName and LogsCommand.Service read `null`, `undefined` and `""` alike. The source only tests them for truthiness.
- Rename.RenameTotals and Rename.PreviewTotals bound the counts in their own contracts. The if-and-only-if statements about them are the lemmas Rename.NoUpdatesIff and Rename.NoAffectedIff.
- Generators.Transform: the comment at turbo/generators/config.ts:155 says the workspace is inserted before the last entry. The code splices it in at index `length`, which appends it at the end. The model follows the code. The JSON re-serialisation of `package.json` is left out.
- The compose.yml append actions and the `addMany` scaffolding of the generator, the CLI's other commands (dev, build, docker, db, status, info, clean, reset) and the health check are not part of this model.

## Findings

| source | as written | input that shows it | evidently intended | confidence | as-written member | corrected member |
|---|---|---|---|---|---|---|
| packages/shared/cli/src/index.ts:80 | `commands[command]` is looked up on a plain object literal, so names inherited from `Object.prototype` pass the `!handler` check | `bun repo toString` runs `Object.prototype.toString` as a handler and exits 0 instead of reporting an unknown command | only the table's own names have a handler; every other name is an unknown command with exit code 1 | not executed | CliMain.InheritedNameRuns | CliMain.Decide |
