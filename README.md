# Dynamic DNS updater — a Dafny model of its reconciliation loop

GoDnsUpdater keeps a set of DNS host records (Namecheap dynamic DNS) pointed at
the machine's public IP address. Its `main` loop, in `dnsupater.go`, repeats one
cycle forever: ask an IP-echo service for the public address; on an error skip
to the wait; otherwise store the address in `IPState.CurrentIP`, and if it
differs from `IPState.PreviousIP` send one update request per configured
`DomainConfig`, in configuration order, whatever each one returns, and only
then set `PreviousIP` to the new address; finally wait until the interval,
measured from the start of the cycle, has passed.

This project models that loop and the pieces around it:

- `Config` (config.dfy): `DomainConfig` and `Config`, the default-interval
  rule of `loadConfig` (0 becomes 5 minutes), and the conversion
  `time.Duration(minutes) * time.Minute`, including its 64-bit wrap-around.
- `Updater` (updater.dfy): the update URL of `updateDNS`, and the
  classification of the provider's answer (success exactly on status 200,
  otherwise an error text carrying the status and the body). `QueryParams`
  splits a URL's query at `&` and `ParseFailureDetail` reads an error text
  back; they are the partners the URL and the error text are proved against.
- `Scheduler` (scheduler.dfy): `countdown` as a loop over an integer
  nanosecond clock.
- `Reconcile` (reconcile.dfy): one cycle as functions on values (`Step`,
  `Requests`, `CycleOutcomes`), a finite run of cycles (`Run`, `RunRequests`),
  and an independent description of the same run — the successful poll
  addresses with repeats dropped (`Changes`) — with lemmas connecting them.
- `Loop` (loop.dfy): the `IPState` object with its two mutable fields and a
  `Reconciler` object holding the configuration and the state, whose `Cycle`
  method runs one iteration in place. Its ghost fields record every poll
  result and every update request so far; its invariant `Valid()` ties the
  object to `Run` and `RunRequests`, so every lemma of `Reconcile` applies to
  the object after any number of cycles. `FailedRecordWaitsForNextChange` is
  an example client of these contracts, not part of the model (so it has no
  row below): a record rejected with status 500 is not tried again while the
  address stays the same, and is tried again after it changes.
- `Text` and `Wrappers`: decimal rendering and parsing, splitting and joining
  at a separator, and `Option`.

Inputs that come from outside are parameters: the poll result is an
`Option<string>` (None for any error of `getPublicIP`), each update's result is a
`Response` (a transport error with its message, or a status and a body), and
the clock readings at the start of a cycle and at the start of its wait are
integers.

The first successful poll fans out to every record only when its address is
not empty: `previous` starts as "", and the comparison is plain string
inequality, so an empty first address counts as no change
(`Reconcile.EmptyFirstPollUpdatesNothing`).

## Model

| member | source | states |
|---|---|---|
| `Config.WithDefaults` | dnsupater.go:143-146 | the interval is never 0 afterwards; 0 becomes 5 minutes; any other configuration is returned unchanged; records and log file are kept |
| `Config.WrapInt64` | dnsupater.go:59 | the result is in the int64 range and congruent to the input modulo 2^64; values already in range are kept |
| `Config.IntervalTicks` | dnsupater.go:59 | minutes times one minute of nanoseconds, exact for up to 153722867 minutes either way; a positive interval in that range is at least one minute |
| `Config.IntervalWrapsPastRange` | dnsupater.go:59 | one minute past that range the duration wraps to a negative value |
| `Text.IntToDecimal` | dnsupater.go:184 | the `%d` rendering is non-empty and made of digits with at most a leading minus sign |
| `Text.ParseIntOfDecimal` | dnsupater.go:184 | parsing the `%d` rendering of any integer gives it back |
| `Updater.UpdateURL` | dnsupater.go:169-174 | the URL begins with the endpoint and `?` and ends with the address being set |
| `Updater.UpdateURLShape` | dnsupater.go:169-174 | the URL is the endpoint, `?`, and the four `name=value` parameters joined by `&` |
| `Updater.UpdateURLParams` | dnsupater.go:169-174 | every URL starts with the endpoint and `?`; when no value contains `&` the query, split at `&`, is exactly host, domain, password and ip with the record's values, in that order |
| `Updater.AmpersandInPasswordAddsParam` | dnsupater.go:169-174 | values are not escaped: split at `&`, a password `p&ip=x` yields five parameters, with a second `ip=x` before the real one |
| `Updater.FailureDetail` | dnsupater.go:184 | the error text starts with the fixed prefix, ends with the whole body, and reads back as exactly the status and the body |
| `Updater.ParseFailureDetailRoundTrip` | dnsupater.go:184 | the error text for a non-200 reply gives back exactly its status code and its body |
| `Updater.Classify` | dnsupater.go:176-187 | the update succeeds if and only if a reply arrived with status 200; a transport error keeps its message; any other status fails with a text from which the status and body are recovered |
| `Updater.InvalidPasswordReply` | dnsupater.go:182-184 | a 500 reply with body "Invalid Password" is a failure whose text carries 500 and that body |
| `Scheduler.Countdown` | dnsupater.go:109-122 | wakes at or after `start + interval` and less than one second after it; returns at once without sleeping when the work already took the whole interval; the clock only moves by whole sleeps, never backwards |
| `Reconcile.Triggered` | dnsupater.go:78 | a cycle fans out exactly when its poll succeeded with an address other than `previous`, which is exactly when the cycle changes `previous` |
| `Reconcile.Step` | dnsupater.go:67-102 | a failed poll leaves both fields as they were; a successful one leaves both equal to the polled address, changed or not |
| `Reconcile.FanOut` | dnsupater.go:83-97 | exactly one request per configured record, the k-th for the k-th record, all with the polled address |
| `Reconcile.Outcomes` | dnsupater.go:83-97 | one outcome per record, the k-th decided by the k-th reply alone |
| `Reconcile.Requests` | dnsupater.go:78-102 | no request unless the poll succeeded with an address different from `previous`; otherwise one per record in order |
| `Reconcile.CycleOutcomes` | dnsupater.go:78-97 | no outcome unless the cycle is triggered; otherwise one per record, each from its own reply, so a failure neither stops nor alters the later ones |
| `Reconcile.Run` | dnsupater.go:62-105 | the state after a finite run of cycles: both fields agree, and a non-empty address in them was returned by some poll |
| `Reconcile.RunRequests` | dnsupater.go:62-105 | the requests of a finite run of cycles, each for a configured record and an address some poll returned |
| `Reconcile.RunTracksLastGood` | dnsupater.go:57-105 | after any sequence of cycles from the initial state both fields hold the address of the last successful poll, or "" if none |
| `Reconcile.RunRequestsAreFanOutsOfChanges` | dnsupater.go:62-105 | all requests of a run are exactly one full fan-out per change of the successfully polled address, in order |
| `Reconcile.TriggeredIffChangedSinceLastFanOut` | dnsupater.go:78 | a successful poll fans out if and only if its address differs from the one of the most recent fan-out ("" if none) |
| `Reconcile.FirstSuccessUpdatesEveryRecord` | dnsupater.go:57-78 | until a poll succeeds the state stays initial, so the first successful non-empty address updates every record |
| `Reconcile.EmptyFirstPollUpdatesNothing` | dnsupater.go:57-78 | an empty address on the first poll is no change: no record is updated and the state stays initial |
| `Reconcile.NoRetryUntilAddressChanges` | dnsupater.go:78-99 | polling the last good address again adds no request, so a failed record is not retried; a new address adds one full fan-out |
| `Reconcile.TwoRecordScenario` | dnsupater.go:62-105 | polls 1.2.3.4, 1.2.3.4, 5.6.7.8 over two records give both updates, then none, then both again |
| `Loop.IPState.constructor` | dnsupater.go:57 | both fields start empty |
| `Loop.Reconciler.constructor` | dnsupater.go:41-59 | for an interval the JSON decoder accepts into a Go `int`: records taken from the configuration, interval defaulted and converted, state initial, nothing polled or sent |
| `Loop.Reconciler.Cycle` | dnsupater.go:62-105 | one cycle in place: the new state is `Step` of the old, the requests sent are `Requests`, the outcomes are `CycleOutcomes`, the invariant tying the object to `Run` is kept, and the wait ends as `Countdown` says |
| `Loop.Reconciler.UpdateAll` | dnsupater.go:83-97 | the fan-out loop sends one request per record in order and reports each record's own outcome, skipping none |

## Left out

- The HTTP requests of `getPublicIP` and `updateDNS` (network I/O): their results are inputs.
- URL parsing by the HTTP client and the provider (a fragment cut at `#`, `%XX` and `+` decoding): `QueryParams` is only a textual split at `&`, so it says what the URL text holds, not what the provider reads from it.
- `strings.TrimSpace` on the polled body: the polled address is taken as already trimmed and opaque.
- Reading and decoding `config.json` (`os.Open`, `io.ReadAll`, `json.Unmarshal`) and opening the log file: foreign library calls; the model starts from a parsed `Config`.
- The `log.Fatalf` exits at start-up: they end the process before the loop starts. One of them is an interval outside the 64-bit range, which the JSON decoder refuses; the `Reconciler` constructor therefore requires the interval to be in that range.
- All console and log output, including the "Next check in" display of `countdown`: it has no effect on the state.
- `time.Now`, `time.Until` and `time.Sleep`: replaced by integer clock readings given as inputs; a one-second sleep moves the clock by exactly one second and reading the clock takes no time.
- Scheduler.Countdown: its bound "less than one second after `start + interval`" holds only for sleeps of exactly one second; a real `time.Sleep` may last longer, so for the program only the lower bound and the immediate return are promised.
- The overflow of `startTime.Add(interval)` for extreme times: times are unbounded integers.
- The unbounded `for {}` loop: modelled as single cycles and as runs over finite sequences of polls.
- The error text of a transport failure, which Go builds from the URL and the cause: kept as an opaque message.
- The body read error ignored in `updateDNS` (`body, _ := io.ReadAll`): the body given is whatever was read.
