/** The claims-assembly state of the digest-token builder. Scalar claims (`type`,
    `originStreamId`, `requiredTag`, `expires`) live in a JSON object where the last call
    wins; the two list claims (`capabilities`, `applyTags`) are collected apart, only ever
    appended to, and joined to the object when the token is built. Every setter that takes
    an object argument throws on null before it changes anything. */
module TokenBuilder {
  import opened Wrappers
  import opened Json
  import JavaLong

  const FieldType: string := "type"
  const FieldOriginStreamId: string := "originStreamId"
  const FieldRequiredTag: string := "requiredTag"
  const FieldApplyTags: string := "applyTags"
  const FieldCapabilities: string := "capabilities"
  /** Declared beside the signing code; the wire name of the expiration claim. */
  const FieldExpires: string := "expires"

  const TypeAuth: string := "auth"
  const TypeStream: string := "stream"
  const TypePublish: string := "publish"

  const ChannelIdPrefix: string := "channelId:"
  const ChannelAliasPrefix: string := "channelAlias:"

  /** The claim names a setter writes straight into the claims object. */
  const ScalarFields: set<string> := {FieldType, FieldOriginStreamId, FieldRequiredTag, FieldExpires}

  /** Why a setter threw: the argument it names was null. */
  datatype Error =
    | NullApplicationId
    | NullSecret
    | NullCapability
    | NullExpirationDate
    | NullOriginStreamId
    | NullChannelId
    | NullChannelAlias
    | NullTag

  /** The message of the runtime exception thrown for each error. */
  function Message(e: Error): string {
    match e
    case NullApplicationId => "Application ID must not be null"
    case NullSecret => "Secret must not be null"
    case NullCapability => "Capability must not be null"
    case NullExpirationDate => "Expiration date must not be null"
    case NullOriginStreamId => "Origin Stream ID must not be null"
    case NullChannelId => "Channel ID must not be null"
    case NullChannelAlias => "Channel alias must not be null"
    case NullTag => "Tag must not be null"
  }

  /** The builder's fields. A list is None until its first element is added, as the Java
      array builders stay null until then. */
  datatype Builder = Builder(
    applicationId: Option<string>,
    secret: Option<string>,
    claims: Object,
    capabilities: Option<seq<string>>,
    applyTags: Option<seq<string>>)

  /** A thrown exception, together with the builder as the caller that catches it sees it. */
  datatype Thrown = Thrown(error: Error, state: Builder)

  type Outcome = Result<Builder, Thrown>

  /** Everything the builder hands to the signer: application id, secret and claims. */
  datatype SigningInput = SigningInput(applicationId: Option<string>, secret: Option<string>, claims: Object)

  /** The entries of a list field, empty when the list was never created. */
  function Entries(list: Option<seq<string>>): seq<string> {
    list.GetOr([])
  }

  /** `value` is of the kind the setters write under claim `name`. */
  predicate FitsField(name: string, value: Value) {
    && (name == FieldType ==> value in {String(TypeAuth), String(TypeStream), String(TypePublish)})
    && (name == FieldOriginStreamId ==> value.String?)
    && (name == FieldRequiredTag ==> value.String?)
    && (name == FieldExpires ==> value.Number? && JavaLong.InRange(value.num))
  }

  /** The invariant every reachable builder keeps: the claims object holds only scalar
      claims, each of the kind its setter writes, and a list exists only once it is non-empty. */
  ghost predicate WellFormed(b: Builder) {
    && DistinctNames(b.claims)
    && Names(b.claims) <= ScalarFields
    && (forall n :: Get(b.claims, n).Some? ==> FitsField(n, Get(b.claims, n).value))
    && (b.capabilities.Some? ==> |b.capabilities.value| > 0)
    && (b.applyTags.Some? ==> |b.applyTags.value| > 0)
  }

  /** Setting a scalar claim to a value of its kind keeps a builder well-formed. */
  lemma SetClaimKeepsWellFormed(b: Builder, name: string, value: Value, after: Builder)
    requires WellFormed(b) && SetsClaim(b, name, value, after)
    requires name in ScalarFields && FitsField(name, value)
    ensures WellFormed(after)
  {
    forall n | Get(after.claims, n).Some?
      ensures FitsField(n, Get(after.claims, n).value)
    {
      if n != name {
        assert Get(after.claims, n) == Get(b.claims, n);
      }
    }
  }

  /** `after` is `before` with claim `name` set to `value` and nothing else changed. */
  ghost predicate SetsClaim(before: Builder, name: string, value: Value, after: Builder) {
    && Get(after.claims, name) == Some(value)
    && (forall n :: n != name ==> Get(after.claims, n) == Get(before.claims, n))
    && Names(after.claims) == Names(before.claims) + {name}
    && (DistinctNames(before.claims) ==> DistinctNames(after.claims))
    && after.(claims := before.claims) == before
  }

  /** Every list value in `o` has at least one element. */
  ghost predicate ListsNonEmpty(o: Object) {
    forall n :: Get(o, n).Some? && Get(o, n).value.Array? ==> |Get(o, n).value.items| > 0
  }

  /** A fresh builder: nothing set, no claims, no lists. */
  function New(): (b: Builder)
    ensures WellFormed(b)
    ensures Names(b.claims) == {}
    ensures b.applicationId.None? && b.secret.None?
    ensures b.capabilities.None? && b.applyTags.None?
  {
    Builder(None, None, [], None, None)
  }

  function SetClaim(b: Builder, name: string, value: Value): (r: Builder)
    ensures SetsClaim(b, name, value, r)
  {
    AddKeepsNamesDistinct(b.claims, name, value);
    b.(claims := Add(b.claims, name, value))
  }

  /** withApplicationId: records the application id the token is signed for. */
  function WithApplicationId(b: Builder, applicationId: Option<string>): (r: Outcome)
    ensures r.Failure? <==> applicationId.None?
    ensures r.Failure? ==> r.error == Thrown(NullApplicationId, b)
    ensures r.Success? ==> r.value.applicationId == applicationId && r.value.(applicationId := b.applicationId) == b
  {
    if applicationId.None? then Failure(Thrown(NullApplicationId, b))
    else Success(b.(applicationId := applicationId))
  }

  /** withSecret: records the shared secret the token is signed with. */
  function WithSecret(b: Builder, secret: Option<string>): (r: Outcome)
    ensures r.Failure? <==> secret.None?
    ensures r.Failure? ==> r.error == Thrown(NullSecret, b)
    ensures r.Success? ==> r.value.secret == secret && r.value.(secret := b.secret) == b
  {
    if secret.None? then Failure(Thrown(NullSecret, b))
    else Success(b.(secret := secret))
  }

  /** withCapability: appends a capability, creating the list on first use. */
  function WithCapability(b: Builder, capability: Option<string>): (r: Outcome)
    ensures r.Failure? <==> capability.None?
    ensures r.Failure? ==> r.error == Thrown(NullCapability, b)
    ensures r.Success? ==>
      && r.value.capabilities == Some(Entries(b.capabilities) + [capability.value])
      && r.value.(capabilities := b.capabilities) == b
  {
    if capability.None? then Failure(Thrown(NullCapability, b))
    else
      var list := if b.capabilities.None? then [] else b.capabilities.value;
      Success(b.(capabilities := Some(list + [capability.value])))
  }

  /** expiresInSeconds: the expiration is the clock reading `now` (epoch milliseconds) plus
      `seconds` thousand milliseconds, computed in Java `long` arithmetic. */
  function ExpiresInSeconds(b: Builder, now: JavaLong.Long, seconds: JavaLong.Long): (r: Builder)
    ensures SetsClaim(b, FieldExpires, Number(JavaLong.Wrap(now + seconds * 1000)), r)
    ensures JavaLong.InRange(now + seconds * 1000) ==> Get(r.claims, FieldExpires) == Some(Number(now + seconds * 1000))
  {
    JavaLong.WrapInnerSum(now, seconds * 1000);
    SetClaim(b, FieldExpires, Number(JavaLong.Plus(now, JavaLong.Times(seconds, 1000))))
  }

  /** expiresAt: the expiration is the given date, as epoch milliseconds. */
  function ExpiresAt(b: Builder, expirationDate: Option<JavaLong.Long>): (r: Outcome)
    ensures r.Failure? <==> expirationDate.None?
    ensures r.Failure? ==> r.error == Thrown(NullExpirationDate, b)
    ensures r.Success? ==> SetsClaim(b, FieldExpires, Number(expirationDate.value), r.value)
  {
    if expirationDate.None? then Failure(Thrown(NullExpirationDate, b))
    else Success(SetClaim(b, FieldExpires, Number(expirationDate.value)))
  }

  /** forAuthenticationOnly: restricts the token type to authentication. */
  function ForAuthenticationOnly(b: Builder): (r: Builder)
    ensures SetsClaim(b, FieldType, String(TypeAuth), r)
  {
    SetClaim(b, FieldType, String(TypeAuth))
  }

  /** forStreamingOnly: restricts the token type to streaming. */
  function ForStreamingOnly(b: Builder): (r: Builder)
    ensures SetsClaim(b, FieldType, String(TypeStream), r)
  {
    SetClaim(b, FieldType, String(TypeStream))
  }

  /** forPublishingOnly: restricts the token type to publishing. */
  function ForPublishingOnly(b: Builder): (r: Builder)
    ensures SetsClaim(b, FieldType, String(TypePublish), r)
  {
    SetClaim(b, FieldType, String(TypePublish))
  }

  /** forOriginStream: restricts the token to one origin stream. */
  function ForOriginStream(b: Builder, originStreamId: Option<string>): (r: Outcome)
    ensures r.Failure? <==> originStreamId.None?
    ensures r.Failure? ==> r.error == Thrown(NullOriginStreamId, b)
    ensures r.Success? ==> SetsClaim(b, FieldOriginStreamId, String(originStreamId.value), r.value)
  {
    if originStreamId.None? then Failure(Thrown(NullOriginStreamId, b))
    else Success(SetClaim(b, FieldOriginStreamId, String(originStreamId.value)))
  }

  /** forTag: requires the given tag on the origin stream, replacing any earlier one. */
  function ForTag(b: Builder, tag: Option<string>): (r: Outcome)
    ensures r.Failure? <==> tag.None?
    ensures r.Failure? ==> r.error == Thrown(NullTag, b)
    ensures r.Success? ==> SetsClaim(b, FieldRequiredTag, String(tag.value), r.value)
  {
    if tag.None? then Failure(Thrown(NullTag, b))
    else Success(SetClaim(b, FieldRequiredTag, String(tag.value)))
  }

  /** forChannel: a required tag naming the channel id. A null id throws its own error. */
  function ForChannel(b: Builder, channelId: Option<string>): (r: Outcome)
    ensures r.Failure? <==> channelId.None?
    ensures r.Failure? ==> r.error == Thrown(NullChannelId, b)
    ensures channelId.Some? ==> r == ForTag(b, Some(ChannelIdPrefix + channelId.value))
    ensures r.Success? ==> SetsClaim(b, FieldRequiredTag, String(ChannelIdPrefix + channelId.value), r.value)
  {
    if channelId.None? then Failure(Thrown(NullChannelId, b))
    else ForTag(b, Some(ChannelIdPrefix + channelId.value))
  }

  /** forChannelAlias: a required tag naming the channel alias. A null alias throws its own error. */
  function ForChannelAlias(b: Builder, channelAlias: Option<string>): (r: Outcome)
    ensures r.Failure? <==> channelAlias.None?
    ensures r.Failure? ==> r.error == Thrown(NullChannelAlias, b)
    ensures channelAlias.Some? ==> r == ForTag(b, Some(ChannelAliasPrefix + channelAlias.value))
    ensures r.Success? ==> SetsClaim(b, FieldRequiredTag, String(ChannelAliasPrefix + channelAlias.value), r.value)
  {
    if channelAlias.None? then Failure(Thrown(NullChannelAlias, b))
    else ForTag(b, Some(ChannelAliasPrefix + channelAlias.value))
  }

  /** applyTag: appends a tag to apply to the new stream, creating the list on first use. */
  function ApplyTag(b: Builder, tag: Option<string>): (r: Outcome)
    ensures r.Failure? <==> tag.None?
    ensures r.Failure? ==> r.error == Thrown(NullTag, b)
    ensures r.Success? ==>
      && r.value.applyTags == Some(Entries(b.applyTags) + [tag.value])
      && r.value.(applyTags := b.applyTags) == b
  {
    if tag.None? then Failure(Thrown(NullTag, b))
    else
      var list := if b.applyTags.None? then [] else b.applyTags.value;
      Success(b.(applyTags := Some(list + [tag.value])))
  }

  /** Adds a list under `name` when the list was ever created; otherwise the object is unchanged. */
  function IncludeList(o: Object, name: string, list: Option<seq<string>>): (r: Object)
    ensures list.Some? ==> Get(r, name) == Some(Array(list.value))
    ensures list.None? ==> r == o
    ensures forall n :: n != name ==> Get(r, n) == Get(o, n)
    ensures Names(r) == Names(o) + (if list.Some? then {name} else {})
    ensures DistinctNames(o) ==> DistinctNames(r)
    ensures name !in Names(o) ==> o <= r
  {
    if list.Some? then
      AddKeepsNamesDistinct(o, name, Array(list.value));
      Add(o, name, Array(list.value))
    else o
  }

  /** build, up to signing: each list that was ever created joins the claims, and the
      application id, secret and claims are what the signer receives. */
  function Build(b: Builder): (r: SigningInput)
    ensures r.applicationId == b.applicationId && r.secret == b.secret
    ensures forall n :: n != FieldCapabilities && n != FieldApplyTags ==> Get(r.claims, n) == Get(b.claims, n)
    ensures b.capabilities.Some? ==> Get(r.claims, FieldCapabilities) == Some(Array(b.capabilities.value))
    ensures b.capabilities.None? ==> Get(r.claims, FieldCapabilities) == Get(b.claims, FieldCapabilities)
    ensures b.applyTags.Some? ==> Get(r.claims, FieldApplyTags) == Some(Array(b.applyTags.value))
    ensures b.applyTags.None? ==> Get(r.claims, FieldApplyTags) == Get(b.claims, FieldApplyTags)
    ensures WellFormed(b) ==> (FieldCapabilities in Names(r.claims) <==> b.capabilities.Some?)
    ensures WellFormed(b) ==> (FieldApplyTags in Names(r.claims) <==> b.applyTags.Some?)
    ensures WellFormed(b) ==> ListsNonEmpty(r.claims) && DistinctNames(r.claims)
    ensures WellFormed(b) ==> b.claims <= r.claims
  {
    var withCapabilities := IncludeList(b.claims, FieldCapabilities, b.capabilities);
    var claims := IncludeList(withCapabilities, FieldApplyTags, b.applyTags);
    BuiltListsNonEmpty(b, withCapabilities, claims);
    SigningInput(b.applicationId, b.secret, claims)
  }

  lemma BuiltListsNonEmpty(b: Builder, withCapabilities: Object, claims: Object)
    requires withCapabilities == IncludeList(b.claims, FieldCapabilities, b.capabilities)
    requires claims == IncludeList(withCapabilities, FieldApplyTags, b.applyTags)
    ensures WellFormed(b) ==> (FieldCapabilities in Names(claims) <==> b.capabilities.Some?)
    ensures WellFormed(b) ==> (FieldApplyTags in Names(claims) <==> b.applyTags.Some?)
    ensures WellFormed(b) ==> ListsNonEmpty(claims) && DistinctNames(claims)
    ensures WellFormed(b) ==> b.claims <= claims
  {
    if !WellFormed(b) {
      return;
    }
    assert FieldCapabilities !in ScalarFields && FieldApplyTags !in ScalarFields;
    assert FieldCapabilities !in Names(b.claims) && FieldApplyTags !in Names(b.claims);
    assert FieldApplyTags !in Names(withCapabilities);
    forall n | Get(claims, n).Some? && Get(claims, n).value.Array?
      ensures |Get(claims, n).value.items| > 0
    {
      if n != FieldCapabilities && n != FieldApplyTags {
        ScalarClaimNotList(b, n);
        assert false;
      }
    }
  }

  /** In a well-formed builder, no claim of the object is a list. */
  lemma ScalarClaimNotList(b: Builder, n: string)
    requires WellFormed(b)
    ensures Get(b.claims, n).Some? ==> !Get(b.claims, n).value.Array?
  {
    if Get(b.claims, n).Some? {
      assert n in ScalarFields;
      assert FitsField(n, Get(b.claims, n).value);
    }
  }

  /** Only the latest required tag survives: a second forTag erases every trace of the first. */
  lemma ForTagLastWins(b: Builder, first: string, second: string)
    ensures ForTag(ForTag(b, Some(first)).value, Some(second)) == ForTag(b, Some(second))
  {
    AddTwice(b.claims, FieldRequiredTag, String(first), String(second));
  }

  /** The tags written by forChannel and forChannelAlias identify their argument: different
      ids give different tags, and no channel tag equals a channel-alias tag. */
  lemma ChannelTagsIdentify(c1: string, c2: string, alias: string)
    ensures ChannelIdPrefix + c1 == ChannelIdPrefix + c2 ==> c1 == c2
    ensures ChannelAliasPrefix + c1 == ChannelAliasPrefix + c2 ==> c1 == c2
    ensures ChannelIdPrefix + c1 != ChannelAliasPrefix + alias
  {
    if ChannelIdPrefix + c1 == ChannelIdPrefix + c2 {
      assert c1 == (ChannelIdPrefix + c1)[|ChannelIdPrefix|..];
    }
    if ChannelAliasPrefix + c1 == ChannelAliasPrefix + c2 {
      assert c1 == (ChannelAliasPrefix + c1)[|ChannelAliasPrefix|..];
    }
    assert (ChannelIdPrefix + c1)[7] == 'I';
    assert (ChannelAliasPrefix + alias)[7] == 'A';
  }
}
