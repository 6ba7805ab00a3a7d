# position — a Dafny model

The repository assigns peers of a connection graph a *position*: a fixed number of
random coordinates, each below a fixed bound, rendered as comma-separated decimals.
It has two core files, and this project models both.

- `service.go` (module `Position`) holds the configuration (`ServiceConfig`,
  `DefaultServiceConfig`) and the validation in `NewService`. Only a nil random
  dependency or a dimension setting equal to zero is rejected, checked in that order.
  The file also holds the service object with its one-shot `Boot` and `Shutdown`, and
  `Default`, which draws `dimensionCount` numbers bounded by `dimensionDepth` and joins
  their decimal renderings with commas.
- `service/service.go` (module `PeerService`) holds the peer service. It keeps a
  metadata map, which `Boot` overwrites with `{id, name: "position", type: "service"}`,
  and a service collection, which `SetServiceCollection` sets. `Create`, `Search` and
  `Delete` are unimplemented stubs that return an empty position.

The helper modules model the Go library functions the encoder uses. `Decimal` models
`strconv.Itoa`, plus a parser that undoes it. `Strings` models `strings.Join` and
`strings.Split` for a one-character separator. `Encoding` defines the position text
(`Encode`) and a decoder (`Decode`). The service never decodes: `Decode` exists only so
that the round trip and injectivity of the text can be stated and proved.

Collaborators are parameters of the operations that call them:
- The random service's `CreateNMax` is the function argument `createNMax` of
  `Position.Service.Default`.
- The outcome of creating the default random service is the argument of
  `DefaultServiceConfig`.
- The outcome of the identity generator is the argument `newId` of `PeerService.Service.Boot`.

Go's `sync.Once` guards become boolean flags (`bootDone`, `shutdownDone`), and the
closer channel becomes a `closerClosed` flag. A ghost counter records how many times
the channel was closed.

The model follows what the code does, in particular:
- Dimension settings only have to be non-zero (service.go:58-63); negative ones are accepted.
- The peer service's `Boot` has no once-guard (service/service.go:30-40), so its metadata can change.
- `Create`/`Search`/`Delete` are `// TODO` stubs (service/service.go:45, 54, 67) and keep no peer registry.
- `Default` does not check the length of the draw (service.go:103-111).

Panics in the source are failure outcomes in the model:
- the panic in `DefaultServiceConfig` is a `Failure` result;
- the identity-generator panic in the peer `Boot` is `IdError`;
- the nil-interface panic when a peer-service method reaches a collaborator through an
  unset service collection is `NilServiceCollection`.

## Model

| member | source | states |
|---|---|---|
| `Position.DefaultServiceConfig` | service.go:26-48 | fails exactly when creating the random service fails; otherwise the config has a random service and both dimension settings 0 |
| `Position.CheckConfig` | service.go:51-63 | accepts iff the random service is set and count and depth are both non-zero; a nil random service is reported whatever the dimensions are; then a zero count; then a zero depth, each with the source's message |
| `Position.DefaultServiceConfigRejected` | service.go:43-60 | the default configuration is always rejected, with the dimension-count error |
| `Position.NegativeSettingsAccepted` | service.go:58-63 | negative count and depth pass validation, since only zero is rejected |
| `Position.NewService` | service.go:51-80 | returns the validation error and no service, or a fresh service that has not booted or shut down and stores exactly the configured random service, count and depth |
| `Position.Service.constructor` | service.go:65-77 | the new object stores the given settings, its once-guards have not run and its closer is open |
| `Position.Service.Boot` | service.go:96-100 | only the boot once-flag changes (it is set); the closer and shutdown state are unchanged |
| `Position.Service.CloseCloser` | service.go:119 | closes the closer; it may only be called on an open channel, as a second close panics in Go |
| `Position.Service.Shutdown` | service.go:117-121 | afterwards the closer is closed and was closed exactly once; a call after the first changes nothing and cannot fail |
| `Position.Service.Default` | service.go:102-115 | requests `(dimensionCount, dimensionDepth)` from the random service; on failure returns "" and the same error; on success returns the draw's comma-joined decimal text and no error |
| `Decimal.NatDigits` | service.go:110 | the rendering of a natural number is non-empty, all digits, and starts with '0' only for 0 |
| `Decimal.Itoa` | service.go:110 | the rendering is non-empty, contains no comma, starts with '-' iff the number is negative, and is all digits otherwise |
| `Decimal.AtoiItoa` | service.go:110 | parsing a rendering gives back the number |
| `Decimal.ItoaInjective` | service.go:110 | two different numbers never share a rendering |
| `Strings.Join` | service.go:112 | the first part is a prefix of the result, and the result is empty only for no parts or a single empty part; `SplitJoin` and `JoinCount` are its partners |
| `Strings.Split` | service.go:112 | splitting yields at least one separator-free piece, and joining the pieces gives back the input |
| `Strings.JoinCount` | service.go:112 | joining n separator-free parts puts exactly n - 1 separators in the result |
| `Strings.SplitJoin` | service.go:112 | splitting the join of separator-free parts gives back the parts |
| `Encoding.Fields` | service.go:108-111 | one field per number drawn, each non-empty and free of commas |
| `Encoding.Encode` | service.go:108-112 | the text is empty exactly for an empty draw and starts with the first number's rendering; `DecodeEncode` and `EncodeInjective` are its partners |
| `Encoding.EncodeFieldsInOrder` | service.go:108-112 | a non-empty draw's text splits into one field per number, and field k is the rendering of the k-th number drawn |
| `Encoding.DecodeEncode` | service.go:108-112 | splitting a non-empty draw's text on commas and parsing each field recovers the draw |
| `Encoding.EncodeEmptyDraw` | service.go:108-112 | an empty draw renders as "", which does not decode to any position |
| `Encoding.EncodeSeparatorCount` | service.go:108-112 | a draw of n > 0 numbers renders with exactly n - 1 commas |
| `Encoding.EncodeInjective` | service.go:108-112 | different draws always render differently |
| `Encoding.EncodeAlphabet` | service.go:108-112 | a draw of non-negative numbers renders using only digits and commas |
| `PeerService.BootMetadata` | service/service.go:35-39 | the boot metadata has exactly the keys id, name and type, with the given id, "position" and "service" |
| `PeerService.Service.constructor` | service/service.go:8-17 | a new peer service has no service collection and empty metadata |
| `PeerService.Service.Metadata` | service/service.go:60-62 | returns the service's metadata field |
| `PeerService.Service.Service` | service/service.go:73-75 | returns the service-collection field |
| `PeerService.Service.Boot` | service/service.go:30-40 | once an id is obtained, `Metadata()` is exactly `{id, name: "position", type: "service"}`; if there is no collection or id generation fails, the metadata is unchanged and the error is returned |
| `PeerService.BootTwice` | service/service.go:30-40 | a second boot replaces the metadata with the second id, so Boot has no once-guard |
| `PeerService.Service.Create` | service/service.go:42-49 | returns "" and no error for every peer (once a collection is set); it has no modifies clause, so it changes no field |
| `PeerService.Service.Delete` | service/service.go:51-58 | returns "" and no error for every peer (once a collection is set); it changes no field |
| `PeerService.Service.Search` | service/service.go:64-71 | returns "" and no error for every peer (once a collection is set); it changes no field |
| `PeerService.CreateThenSearch` | service/service.go:42-71 | searching right after creating finds "", because nothing is stored |
| `PeerService.Service.SetServiceCollection` | service/service.go:73-79 | afterwards `Service()` returns the collection passed in; only that field changes |

## Left out

- Concurrency: `sync.Once` is modelled as a sequential flag, so concurrent callers of `Boot` and `Shutdown` are not modelled.
- The random service's internals: `createNMax` is an arbitrary function. Nothing is assumed about the length or the bounds of its draw, and the properties that need a bound state it as a precondition (`EncodeAlphabet`).
- Error wrapping: `maskAny`/`maskAnyf` only keep the error kind and message. Stack annotations are dropped. An error from the random collaborator is modelled by its message and returned as `RandomError`.
- Logging: the `Log().Line` calls in `Create`, `Search` and `Delete` are dropped. Only their failure on a nil service collection is kept.
- The identity generator and the service collection are foreign. The id is a parameter, and the collection is an opaque handle.
- The peer service's `closer` channel: no operation in service/service.go uses it.
- Integer width: Go's `int` is 32 or 64 bits wide depending on the platform (at most 64 bits). The model's integers are unbounded, which changes nothing here, because no operation does arithmetic on the settings or the draw and every lemma holds for all integers.
- `Decimal.Atoi` is not Go's `strconv.Atoi`. It rejects a leading '+', which `Itoa` never produces. It is used only as the inverse of `Itoa` in the proofs.
- A peer-to-position registry (storing, finding and removing a peer's position) is not implemented in the code, whose `Create`, `Search` and `Delete` are `// TODO` stubs (service/service.go:45, 54, 67), so it is not modelled.
- PeerService.Service.Metadata: Go returns the service's own map by reference, so a caller that writes to the returned map changes the service's metadata until the next `Boot`; the model returns a map value, so this aliasing is not captured.
