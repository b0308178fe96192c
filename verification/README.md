# EdgeAuth token builder: the claims-assembly state machine

This project models the part of the Phenix EdgeAuth Java library that collects the
authorization constraints of a digest token before it is signed: the fluent
`TokenBuilder` (`java/src/main/java/com/phenixrts/edgeauth/TokenBuilder.java`).

The builder holds three kinds of state:

- **Scalar claims.** `type`, `originStreamId`, `requiredTag` and `expires` are written
  straight into a JSON object builder. Adding a name that is already present replaces its
  value, so the last call wins.
- **List claims.** `capabilities` and `applyTags` are collected in array builders. Each
  array stays null until its first element is added, is only appended to, and is joined
  to the claims only by `build()`.
- **Credentials.** `applicationId` and `secret` are kept beside the claims and handed to
  the signer.

Every setter that takes an object argument throws when that argument is null, before it
changes anything. `forChannel` and `forChannelAlias` are `forTag` with the fixed prefixes
`channelId:` and `channelAlias:`.

## How the model is built

- `wrappers.dfy`, module `Wrappers`: `Option` stands for a nullable Java reference, and
  `Result` for a call that returns or throws.
- `json.dfy`, module `Json`: a claims object is an ordered list of named members.
  - `Get` looks up a member by name.
  - `Add` replaces the value of a name that is present, keeping its position, or appends
    a new name at the end. This is the behaviour `TokenBuilder` relies on from the
    `javax.json` object builder.
- `java_long.dfy`, module `JavaLong`: Java `long` arithmetic, which wraps modulo 2^64.
  It is used for `expiresInSeconds`, which computes `now + seconds * 1000` in `long`.
- `token_builder.dfy`, module `TokenBuilder`: holds the `Builder` record, one pure
  function per setter, and `Build`.
  - A setter that can throw returns `Result<Builder, Thrown>`.
  - `Thrown` carries the error and the builder as a caller that catches the exception
    still sees it. This is how the model states "nothing changed" on a null argument.
  - `Build` returns the `SigningInput` (application id, secret, claims) that the Java
    code passes to `DigestTokens.signAndEncode`.
  - `WellFormed` is the invariant that every reachable builder keeps.
- `builder_session.dfy`, module `BuilderSession`: a fluent chain is a sequence of `Call`
  values.
  - `Run` replays the chain on a fresh builder and stops at the first exception.
  - Reference definitions (`LastType`, `LastRequiredTag`, `LastExpires`,
    `CapabilityArgs`, ...) say, from the calls alone, which call each claim must come
    from.
  - The lemmas prove that the builder agrees with these definitions for every chain.

The wall clock (`new Date().getTime()`) is the explicit `now` parameter of
`ExpiresInSeconds`. A `java.util.Date` argument is modelled as its epoch-millisecond
`long`, the value `getTime()` returns.

The model follows the code:

- An empty application id, secret, capability or tag is accepted. Only null is rejected.
- `build()` itself never checks that the application id or secret were set. It passes
  them on, possibly null (`None`).
- A list claim appears when its array was ever created. Since an array is created only
  together with its first element, this is the same as "the list is non-empty".
  `Build` and `BuildIncludesCalledLists` prove that.

## Model

| member | source | states |
|---|---|---|
| Json.Get | java/src/main/java/com/phenixrts/edgeauth/TokenBuilder.java:229 | a name has a value in the claims object exactly when it is one of the object's names, and the value found belongs to a member of the object |
| Json.Add | java/src/main/java/com/phenixrts/edgeauth/TokenBuilder.java:229 | adding `name: value` makes `name` map to `value`, leaves every other name's value unchanged, adds only `name` to the name set, keeps the length when the name was present and appends at the end when it was new |
| Json.AddKeepsNamesDistinct | java/src/main/java/com/phenixrts/edgeauth/TokenBuilder.java:229 | adding a member never creates a second member with the same name |
| Json.AddTwice | java/src/main/java/com/phenixrts/edgeauth/TokenBuilder.java:224-232 | two additions under the same name leave exactly the object the second addition alone would give: re-adding a key replaces it |
| JavaLong.Wrap | java/src/main/java/com/phenixrts/edgeauth/TokenBuilder.java:112 | the `long` result differs from the exact result by a multiple of 2^64, and equals it whenever the exact result fits in a `long` |
| JavaLong.WrapInnerSum | java/src/main/java/com/phenixrts/edgeauth/TokenBuilder.java:112 | wrapping the product `seconds * 1000` before adding `now` gives the same `long` as wrapping the exact sum once |
| TokenBuilder.New | java/src/main/java/com/phenixrts/edgeauth/TokenBuilder.java:44-46 | a new builder has no claims, no application id, no secret and neither list, and satisfies the builder invariant |
| TokenBuilder.WithApplicationId | java/src/main/java/com/phenixrts/edgeauth/TokenBuilder.java:54-63 | throws the null-application-id error exactly on null, and the caller keeps the unchanged builder; otherwise sets the application id and changes nothing else |
| TokenBuilder.WithSecret | java/src/main/java/com/phenixrts/edgeauth/TokenBuilder.java:71-80 | throws the null-secret error exactly on null, leaving the builder unchanged; otherwise sets the secret and changes nothing else |
| TokenBuilder.WithCapability | java/src/main/java/com/phenixrts/edgeauth/TokenBuilder.java:88-101 | throws the null-capability error exactly on null, leaving the builder unchanged; otherwise the capabilities list becomes the earlier entries, in order, followed by the new one, created if it did not exist, and no other field changes |
| TokenBuilder.ExpiresInSeconds | java/src/main/java/com/phenixrts/edgeauth/TokenBuilder.java:110-115 | sets `expires` to `now + seconds*1000` computed in 64-bit arithmetic, exactly that sum whenever it fits in a `long`, overwriting any earlier expiration; nothing else changes |
| TokenBuilder.ExpiresAt | java/src/main/java/com/phenixrts/edgeauth/TokenBuilder.java:124-132 | throws the null-expiration-date error exactly on null, leaving the builder unchanged; otherwise sets `expires` to the date's epoch milliseconds, overwriting any earlier expiration |
| TokenBuilder.ForAuthenticationOnly | java/src/main/java/com/phenixrts/edgeauth/TokenBuilder.java:139-144 | `type` becomes "auth", replacing any earlier type, and nothing else changes |
| TokenBuilder.ForStreamingOnly | java/src/main/java/com/phenixrts/edgeauth/TokenBuilder.java:151-156 | `type` becomes "stream", replacing any earlier type, and nothing else changes |
| TokenBuilder.ForPublishingOnly | java/src/main/java/com/phenixrts/edgeauth/TokenBuilder.java:163-168 | `type` becomes "publish", replacing any earlier type, and nothing else changes |
| TokenBuilder.ForOriginStream | java/src/main/java/com/phenixrts/edgeauth/TokenBuilder.java:176-185 | throws the null-origin-stream error exactly on null, leaving the builder unchanged; otherwise `originStreamId` becomes the argument and nothing else changes |
| TokenBuilder.ForTag | java/src/main/java/com/phenixrts/edgeauth/TokenBuilder.java:223-232 | throws the null-tag error exactly on null, leaving the builder unchanged; otherwise `requiredTag` becomes the tag, replacing any earlier one, and nothing else changes |
| TokenBuilder.ForChannel | java/src/main/java/com/phenixrts/edgeauth/TokenBuilder.java:193-200 | throws its own null-channel-id error exactly on null, leaving the builder unchanged; otherwise has exactly the effect of `forTag("channelId:" + id)` |
| TokenBuilder.ForChannelAlias | java/src/main/java/com/phenixrts/edgeauth/TokenBuilder.java:208-215 | throws its own null-channel-alias error exactly on null, leaving the builder unchanged; otherwise has exactly the effect of `forTag("channelAlias:" + alias)` |
| TokenBuilder.ApplyTag | java/src/main/java/com/phenixrts/edgeauth/TokenBuilder.java:240-253 | throws the null-tag error exactly on null, leaving the builder unchanged; otherwise the applyTags list becomes the earlier entries, in order, followed by the new tag, and `requiredTag` and every other field stay as they were |
| TokenBuilder.IncludeList | java/src/main/java/com/phenixrts/edgeauth/TokenBuilder.java:263-269 | a list that was never created leaves the claims as they are; a created list is added under its name, appended after the existing claims, and no other claim changes |
| TokenBuilder.Build | java/src/main/java/com/phenixrts/edgeauth/TokenBuilder.java:260-272 | the signer gets the stored application id and secret and the claims with each created list added under its name and every scalar claim unchanged; for a well-formed builder a list name is present exactly when its list was created, every list value is non-empty, names stay distinct and the scalar claims come first |
| TokenBuilder.BuiltListsNonEmpty | java/src/main/java/com/phenixrts/edgeauth/TokenBuilder.java:263-269 | from a well-formed builder, the built claims hold a list name exactly when the list was created, hold no empty list, keep names distinct and extend the scalar claims |
| TokenBuilder.SetClaimKeepsWellFormed | java/src/main/java/com/phenixrts/edgeauth/TokenBuilder.java:110-232 | writing a scalar claim with a value of its kind keeps the builder invariant |
| TokenBuilder.ForTagLastWins | java/src/main/java/com/phenixrts/edgeauth/TokenBuilder.java:224-232 | `forTag(a)` then `forTag(b)` gives exactly the builder `forTag(b)` alone gives: only the latest tag survives |
| TokenBuilder.ChannelTagsIdentify | java/src/main/java/com/phenixrts/edgeauth/TokenBuilder.java:194-215 | the prefixed tags are injective in the channel id or alias, and a channel tag never equals a channel-alias tag |
| BuilderSession.StepRejects | java/src/main/java/com/phenixrts/edgeauth/TokenBuilder.java:54-253 | any call throws exactly when its object argument is null, with that argument's error, and the caller keeps the builder it called |
| BuilderSession.StepWritesClaim | java/src/main/java/com/phenixrts/edgeauth/TokenBuilder.java:110-232 | a successful call sets exactly the one claim it writes, with the value it writes, or leaves the claims object untouched |
| BuilderSession.WrittenClaimFits | java/src/main/java/com/phenixrts/edgeauth/TokenBuilder.java:110-232 | every claim a call writes is a scalar claim with a value of its kind: a known type literal, a string, or an epoch-millisecond `long` |
| BuilderSession.StepKeepsOtherFields | java/src/main/java/com/phenixrts/edgeauth/TokenBuilder.java:54-253 | a successful call changes the credentials or a list only when it is that field's own setter, and a list only by appending its argument |
| BuilderSession.StepKeepsWellFormed | java/src/main/java/com/phenixrts/edgeauth/TokenBuilder.java:54-253 | no successful call breaks the builder invariant |
| BuilderSession.RunKeepsWellFormed | java/src/main/java/com/phenixrts/edgeauth/TokenBuilder.java:44-253 | every builder a chain of calls reaches holds only the four scalar claims, without duplicate names, each with a value of the kind its setter writes, and a list only once it has an entry |
| BuilderSession.RunSucceedsIffNoNull | java/src/main/java/com/phenixrts/edgeauth/TokenBuilder.java:54-253 | a chain of calls runs to the end if and only if no call receives a null object argument |
| BuilderSession.RunStopsAtFirstNull | java/src/main/java/com/phenixrts/edgeauth/TokenBuilder.java:54-253 | a chain that throws stops at the first call with a null argument, with that call's error, and the builder is exactly as the earlier calls left it |
| BuilderSession.RunKeepsCredentials | java/src/main/java/com/phenixrts/edgeauth/TokenBuilder.java:54-80 | the application id and secret are those of the last calls that set them |
| BuilderSession.RunKeepsLastType | java/src/main/java/com/phenixrts/edgeauth/TokenBuilder.java:139-168 | after any chain, `type` is the literal of the last `forAuthenticationOnly`/`forStreamingOnly`/`forPublishingOnly` call, and absent if there was none |
| BuilderSession.RunKeepsLastOriginStream | java/src/main/java/com/phenixrts/edgeauth/TokenBuilder.java:176-185 | after any chain, `originStreamId` is the argument of the last `forOriginStream` call |
| BuilderSession.RunKeepsLastRequiredTag | java/src/main/java/com/phenixrts/edgeauth/TokenBuilder.java:193-232 | after any chain, `requiredTag` comes from the last of `forTag`, `forChannel`, `forChannelAlias`, with that call's prefix |
| BuilderSession.RunKeepsLastExpires | java/src/main/java/com/phenixrts/edgeauth/TokenBuilder.java:110-132 | after any chain, `expires` comes from the last `expiresInSeconds` or `expiresAt` call |
| BuilderSession.RunAppendsLists | java/src/main/java/com/phenixrts/edgeauth/TokenBuilder.java:88-101 | after any chain, each list holds the arguments of all its calls in call order, and exists only if there was at least one such call |
| BuilderSession.BuildIncludesCalledLists | java/src/main/java/com/phenixrts/edgeauth/TokenBuilder.java:260-272 | after a chain, the built claims contain `capabilities` exactly when some `withCapability` call succeeded, and then list them all in order; likewise `applyTags`; no list claim is ever empty |
| BuilderSession.ChannelForAnHourState | java/src/main/java/com/phenixrts/edgeauth/TokenBuilder.java:54-200 | the documented usage (credentials, `expiresInSeconds(3600)`, `forChannel`) leaves the credentials, the `channelId:` tag and `now + 3600000` as the only state |
| BuilderSession.ChannelTokenForAnHour | java/src/main/java/com/phenixrts/edgeauth/TokenBuilder.java:260-272 | for the documented usage, the signer receives the credentials and exactly the two claims `requiredTag = "channelId:" + id` and `expires = now + 3600000` |

## Left out

- `DigestTokens.signAndEncode` (TokenBuilder.java:271) is not part of this model. It
  covers HMAC signing, base64url encoding and JSON serialisation, and a keyed
  cryptographic hash cannot be modelled meaningfully here. `Build` stops at the inputs
  it would receive.
- The field name constant `DigestTokens.FIELD_EXPIRES` comes from that class, which is
  not part of this model. The model assumes its value is `expires`.
- Consumer-side decoding, signature verification and the expiry check: no source for
  them is part of this model.
- Any check that the application id or secret were set at build time. `build()` does no
  such check, and any failure would come from the unseen signer.
- The real wall clock. Its reading is the `now` parameter of `ExpiresInSeconds`.
- The internals of the `javax.json` library. Only the behaviour of
  `JsonObjectBuilder.add` is modelled: a repeated name replaces its value.
- Json.Add: assumes an insertion-ordered object builder, in which a new name goes last
  and a repeated name keeps its place. The `javax.json` API calls an object unordered;
  insertion order is how its reference implementation behaves, not what `add`
  documents. Build's promise that the scalar claims come first rests on this
  assumption.
- TokenBuilder.Build: the model fixes an order for the members, but the contract
  promises only that the scalar claims come before the lists added at build time. The
  relative order of `capabilities` and `applyTags`, and the position of a re-added
  scalar name, are left unstated.
- Setters are pure functions from a builder value to a builder value. The Java methods
  mutate the object and return `this`. The two agree only when each result is used
  once, in a chain, which is what `Run` models. Aliasing a builder is not modelled.
- Strings are Dafny strings of Unicode scalar values, not Java's UTF-16 strings, so a
  lone surrogate cannot be represented. The model only concatenates and compares
  strings.
- Reusing the builder after `build()`. The Java code mutates the shared object builder
  there; the model's `Build` is pure.
- Exception messages are given by `TokenBuilder.Message`, but nothing is proved about
  them.
- Concurrency: a builder is not shared between threads.
- The command-line tool.
