# Runtime Configurator watcher and MySQL URL multiplexer, in Dafny

This project models two pieces of the Go Cloud Development Kit.

**The Runtime Configurator watcher** (`runtimevar/runtimeconfigurator`). A
watcher polls one configuration variable of the Cloud Runtime Configurator
service. It caches the last bytes it saw, whether the variable was last seen
deleted, the update time of the last report and the time of its last RPC.
Each call of `Watch` loops. A pass waits until `waitTime` has passed since the
last RPC, or until the context is done. It then fetches the variable once,
records the fetch time and classifies the result:

- content that differs from the cache, or any content after a deletion, is a change;
- unchanged content loops again;
- NotFound is reported once per deletion and absorbed afterwards;
- any other error, and an invalid timestamp, is returned at once.

`NewVariable` validates the `WaitTime` option. A negative value is an error
and zero means ten minutes. It also sets the last RPC time one wait into the
past, so that the first pass fetches at once.

In the model (`runtimeconfigurator.dfy`, module `RuntimeConfigurator`):

- The watcher is the class `Watcher` with the source's mutable fields.
- `Watch` consumes a finite sequence of `Poll`s, one per pass of the loop. A
  `Poll` says either that the context was done first, or what the fetch
  returned together with the clock readings the pass makes.
- `Watch` is proved equal to `Run`, which iterates the pure one-pass function
  `Step`. The lemmas state the transition rules about `Step` and `Run`.

Times are integer nanoseconds, as `time.Duration` is. The clock, the service
and the decoder are inputs. Three behaviours follow the code:

- A decode error still commits the new bytes before it is returned
  (`ChangeCommitsBeforeDecode`, `DecodeErrorCommitsBytes`). A later fetch of
  the same bytes is therefore not reported again.
- A NotFound keeps the cached bytes. "Deleted" and "has content" are not
  exclusive in the state; `isDeleted` alone decides.
- Every fetch updates `lastRPCTime`, including one that fails.

Because the initial cache is empty and the comparison treats an empty payload
as equal to it, a variable whose content is empty when the watcher starts is
not reported by the first `Watch` (`FirstEmptyValueIsSilent`).

**The MySQL URL multiplexer** (`mysql/mysql.go`). `URLMux` is a table from
URL scheme to opener. `RegisterMySQL` allocates the table on first use and
panics on a scheme already present. `OpenMySQLURL` rejects a URL without a
scheme, then a nil multiplexer or an unregistered scheme, and otherwise calls
the opener registered for the scheme.

In the model (`mysql.dfy`, module `MySQL`):

- Openers are opaque identities (`Opener`), with Go's nil interface value as
  `NilOpener`.
- The panic becomes a returned `RegisterError`.
- Dispatch yields the call it would make (`OpenCall`).

`wrappers.dfy` holds the `Option` and `Result` datatypes both modules use.

## Model

| member | source | states |
|---|---|---|
| `RuntimeConfigurator.ResolveWaitTime` | runtimevar/runtimeconfigurator/runtimeconfigurator.go:81-90 | fails exactly for a negative WaitTime, with that value; 0 becomes the 10-minute default; a positive value is kept; every accepted wait time is positive |
| `RuntimeConfigurator.NewVariable` | runtimevar/runtimeconfigurator/runtimeconfigurator.go:78-105 | a nil or zero options value gets the default; a negative WaitTime is refused and builds no watcher; otherwise a fresh watcher holds the resolved positive wait time, the formatted name, the chosen decoder (the option's or the JSON default) and the initial state |
| `RuntimeConfigurator.Watcher.constructor` | runtimevar/runtimeconfigurator/runtimeconfigurator.go:98-104 | a new watcher has an empty cache, is not deleted, has the zero update time and a last RPC time of now minus waitTime |
| `RuntimeConfigurator.InitialState` | runtimevar/runtimeconfigurator/runtimeconfigurator.go:98-104 | no contract of its own: the fields of a new watcher (empty cache, not deleted, zero update time, last RPC one wait before now); `Watcher.constructor` and `NewVariable` state that a new watcher has this state, and `FirstPollImmediate` and `FirstEmptyValueIsSilent` state what follows from it |
| `RuntimeConfigurator.PollDelay` | runtimevar/runtimeconfigurator/runtimeconfigurator.go:160 | the timer set at the start of a pass ends at lastRPCTime + waitTime, and is at most zero exactly when a full wait has passed since the last RPC |
| `RuntimeConfigurator.FirstPollImmediate` | runtimevar/runtimeconfigurator/runtimeconfigurator.go:101 | the first pass's timer, started at any time no earlier than creation, is set to at most zero (to exactly creation minus now) |
| `RuntimeConfigurator.ResourceName.String` | runtimevar/runtimeconfigurator/runtimeconfigurator.go:115-117 | the path is "projects/" + project + "/configs/" + config + "/variables/" + variable: its length and each segment at its offset |
| `RuntimeConfigurator.ResourceNameInjective` | runtimevar/runtimeconfigurator/runtimeconfigurator.go:115-117 | when project and config contain no '/', the path determines the name: equal paths mean equal names |
| `RuntimeConfigurator.BytesFromProto` | runtimevar/runtimeconfigurator/runtimeconfigurator.go:209-215 | the binary value when the payload is the bytes case; otherwise the bytes of the text field, which are empty when no contents are set |
| `RuntimeConfigurator.RepresentationSwitchIsSilent` | runtimevar/runtimeconfigurator/runtimeconfigurator.go:179-180 | when not deleted, a fetch of the cached bytes does not return, whether they come as the binary or the text payload |
| `RuntimeConfigurator.BytesNotEqual` | runtimevar/runtimeconfigurator/runtimeconfigurator.go:217-228 | true exactly when the two byte sequences differ, in length or at some position |
| `RuntimeConfigurator.IsNotFound` | runtimevar/runtimeconfigurator/runtimeconfigurator.go:195 | no contract of its own: an RPC error is NotFound exactly when it carries a gRPC status whose code is NotFound (5); an error without a status, or with another code, is not; `StepReturnsIff`, `FailuresKeepCache` and `NotFoundReportedOnTransition` state how the two kinds are treated |
| `RuntimeConfigurator.ParseUpdateTime` | runtimevar/runtimeconfigurator/runtimeconfigurator.go:230-237 | succeeds exactly for a valid update_time, with that time; otherwise fails with an invalid-timestamp error naming the variable |
| `RuntimeConfigurator.Step` | runtimevar/runtimeconfigurator/runtimeconfigurator.go:159-205 | no contract of its own: one pass of the loop, from the select to the end of the error branch; its rules are stated by `StepReturnsIff`, `ContinueOnlyRecordsFetch`, `FetchRecordsTime`, `ChangeCommitsBeforeDecode`, `DeliveredIsNew`, `NotFoundReportedOnTransition`, `FailuresKeepCache` and `ReNotifyAfterDeletion` |
| `RuntimeConfigurator.Run` | runtimevar/runtimeconfigurator/runtimeconfigurator.go:158-206 | a Watch over finitely many passes uses at most the passes supplied; it uses all of them when it runs out, and at least one when it returns |
| `RuntimeConfigurator.Watcher.Watch` | runtimevar/runtimeconfigurator/runtimeconfigurator.go:154-207 | the returned value or error, the number of passes used and the new bytes, isDeleted, updateTime and lastRPCTime are those of the loop's transition rules applied from the old state |
| `RuntimeConfigurator.StepReturnsIff` | runtimevar/runtimeconfigurator/runtimeconfigurator.go:158-206 | a pass returns if and only if the context is done, the timestamp is invalid, the state is deleted, the bytes differ, the error is not NotFound, or a NotFound arrives while not deleted |
| `RuntimeConfigurator.ContinueOnlyRecordsFetch` | runtimevar/runtimeconfigurator/runtimeconfigurator.go:169-205 | a pass that loops again made a fetch and changed nothing but lastRPCTime, which is now the fetch time |
| `RuntimeConfigurator.FetchRecordsTime` | runtimevar/runtimeconfigurator/runtimeconfigurator.go:160-170 | every fetch sets lastRPCTime to its time, whatever its result; a done context returns its error without a fetch and leaves the whole state alone |
| `RuntimeConfigurator.ChangeCommitsBeforeDecode` | runtimevar/runtimeconfigurator/runtimeconfigurator.go:180-191 | on a valid fetch that is a change, bytes and updateTime are set and isDeleted cleared; the decoded value with that update time is returned, or the decode error, and the new state is committed in both cases |
| `RuntimeConfigurator.DeliveredIsNew` | runtimevar/runtimeconfigurator/runtimeconfigurator.go:180-191 | a returned value follows a deletion or different bytes, leaves the state not deleted, carries the committed update time and is the decoding of the committed bytes |
| `RuntimeConfigurator.NotFoundReportedOnTransition` | runtimevar/runtimeconfigurator/runtimeconfigurator.go:198-204 | a NotFound is returned only from a state that was not deleted; the state becomes deleted with the clock reading as update time and keeps its bytes |
| `RuntimeConfigurator.FailuresKeepCache` | runtimevar/runtimeconfigurator/runtimeconfigurator.go:172-197 | a non-NotFound RPC error or an invalid timestamp is returned as it is, and bytes, isDeleted and updateTime stay as they were |
| `RuntimeConfigurator.ReNotifyAfterDeletion` | runtimevar/runtimeconfigurator/runtimeconfigurator.go:180-187 | after a deletion any valid fetch returns (a value or a decode error) and clears isDeleted, even for bytes equal to the cache |
| `RuntimeConfigurator.SilentRunKeepsCache` | runtimevar/runtimeconfigurator/runtimeconfigurator.go:158-206 | a Watch that runs out of passes has not changed bytes, isDeleted or updateTime |
| `RuntimeConfigurator.NoSpuriousNotification` | runtimevar/runtimeconfigurator/runtimeconfigurator.go:177-193 | when not deleted, any number of valid fetches of the cached bytes never make Watch return, and the cache is unchanged |
| `RuntimeConfigurator.RepeatedNotFoundAbsorbed` | runtimevar/runtimeconfigurator/runtimeconfigurator.go:198-205 | once deleted, any number of NotFound results never make Watch return, and the state stays deleted with the same cache |
| `RuntimeConfigurator.DeletionReportedOnce` | runtimevar/runtimeconfigurator/runtimeconfigurator.go:195-205 | from a state that is not deleted, a run of NotFound results is reported by the first pass only; the next Watch over the rest returns nothing |
| `RuntimeConfigurator.WatchReportsOnlyNews` | runtimevar/runtimeconfigurator/runtimeconfigurator.go:158-206 | a value returned by Watch follows a deletion or carries bytes different from those at the start; a NotFound returned by Watch moves a not-deleted state to deleted |
| `RuntimeConfigurator.WatchEndsAtFirstReport` | runtimevar/runtimeconfigurator/runtimeconfigurator.go:152-206 | Watch blocks until there is something to report: a call runs out of passes if and only if every pass is silent (a valid fetch of the cached bytes while not deleted, or a NotFound while deleted); otherwise it ends at the first pass that is not silent |
| `RuntimeConfigurator.FirstEmptyValueIsSilent` | runtimevar/runtimeconfigurator/runtimeconfigurator.go:179-180 | from a new watcher, valid fetches of empty content never make the first Watch return |
| `RuntimeConfigurator.DecodeErrorCommitsBytes` | runtimevar/runtimeconfigurator/runtimeconfigurator.go:180-187 | after a decode error, a following valid fetch of the same bytes loops again rather than returning |
| `RuntimeConfigurator.BadTimestampKeepsChangeDetectable` | runtimevar/runtimeconfigurator/runtimeconfigurator.go:172-175 | an invalid timestamp returns its error, and a later valid fetch of bytes that differ from the earlier cache is still returned with those bytes committed |
| `RuntimeConfigurator.ScenarioUnchangedThenChanged` | runtimevar/runtimeconfigurator/runtimeconfigurator.go:158-206 | "v1" at t0 is returned with t0; in the next Watch, "v1" again at t1 is passed over and "v2" at t2 is returned with t2 after two passes |
| `RuntimeConfigurator.ScenarioDeletedThenRecreated` | runtimevar/runtimeconfigurator/runtimeconfigurator.go:158-206 | NotFound at t0 is returned; in the next Watch, NotFound at t1 is passed over and content at t2 is returned with t2 after two passes |
| `MySQL.URLMux.constructor` | mysql/mysql.go:73-80 | the zero value has no table and no registered scheme |
| `MySQL.URLMux.RegisterMySQL` | mysql/mysql.go:84-91 | the table is allocated on first use; a new scheme adds exactly that one entry and leaves every other entry as it was; a scheme already present is refused with an error and its entry is not overwritten |
| `MySQL.Get` | mysql/mysql.go:111 | no contract of its own: a Go map read, which gives the stored opener or nil for a missing scheme; `MySQL.Dispatch` states its effect on dispatch |
| `MySQL.Dispatch` | mysql/mysql.go:105-117 | an empty scheme fails with "no scheme" whatever the table holds; an absent scheme or a nil entry fails with "no provider"; otherwise the call goes to exactly the opener stored for the scheme, with the URL |
| `MySQL.OpenMySQLURL` | mysql/mysql.go:105-117 | on a nil multiplexer, an empty scheme still fails with "no scheme" and any other scheme with "no provider"; on a multiplexer, dispatch through its table |
| `MySQL.DispatchAfterRegister` | mysql/mysql.go:84-117 | registering a fresh scheme changes dispatch only for URLs of that scheme, and only when the scheme is non-empty and the opener non-nil |
| `MySQL.NewDefaultURLMux` | mysql/mysql.go:34-36 | after the package's init the multiplexer maps exactly "mysql" to the package's opener, and every "mysql" URL is dispatched to it |

## Left out

- `NewClient`, `Client.Close` and `watcher.Close` are not modelled: they set up and tear down the gRPC connection, and the last is a no-op.
- The timer and context `select` of each pass is not modelled as concurrency. A pass either reports the context as done (an error, no fetch) or fetches; the timer duration is the function `PollDelay`, and real-time waiting is not modelled.
- `ptypes.Timestamp`, called inside `parseUpdateTime`, is a protobuf library call: a message's timestamp is given as valid (with its time) or invalid.
- The decoder (`runtimevar.Decoder`, JSON by default) is a total function given at construction that returns a value or a failure reason. The JSON decoder is a parameter of `NewVariable`.
- Protobuf message and gRPC status types are reduced to the fields the watcher reads. A Go string is a byte sequence, so the text payload is modelled as its bytes.
- `time.Time` and `time.Duration` are unbounded integers: the int64 saturation of `time.Sub` and `time.Add` at extreme times is not modelled. `UTC()` changes only the location, so it is the identity here.
- Go's nil slice and empty slice are one value. The comparison and the default JSON decoder do not tell them apart; a custom decoder that does is not modelled.
- `URLOpener.OpenMySQLURL`, `openWithUrl`, `connector`, `ocsql.Wrap` and `sql.OpenDB` are library wrappers with no logic. An opener is an identity, and dispatch returns the call it would make.
- `URLMux.OpenMySQL` and the package-level `Open` are not modelled: `url.Parse` is a library call, and what follows it is `OpenMySQLURL`, which is modelled.
- The global `defaultURLMux` and `DefaultURLMux` are load-time plumbing. `NewDefaultURLMux` builds the multiplexer that the package's `init` leaves behind.
- Concurrent use of a watcher or a multiplexer is not modelled.
