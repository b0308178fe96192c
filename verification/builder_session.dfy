/** A fluent chain of builder calls, replayed on a fresh builder. A thrown exception ends
    the chain. Reference definitions say, call by call, which call each claim should come
    from; the lemmas show the builder agrees with them. */
module BuilderSession {
  import opened Wrappers
  import opened Json
  import JavaLong
  import TokenBuilder

  /** One call on the builder, with its argument (None for a null). */
  datatype Call =
    | SetApplicationId(applicationId: Option<string>)
    | SetSecret(secret: Option<string>)
    | AddCapability(capability: Option<string>)
    | ExpireIn(now: JavaLong.Long, seconds: JavaLong.Long)
    | ExpireAt(expirationDate: Option<JavaLong.Long>)
    | AuthenticationOnly
    | StreamingOnly
    | PublishingOnly
    | OriginStream(originStreamId: Option<string>)
    | Channel(channelId: Option<string>)
    | ChannelAlias(channelAlias: Option<string>)
    | RequireTag(requiredTag: Option<string>)
    | ApplyTag(appliedTag: Option<string>)

  /** The error a call throws because of its argument alone; None when it cannot throw. */
  function Rejection(c: Call): Option<TokenBuilder.Error> {
    match c
    case SetApplicationId(x) => if x.None? then Some(TokenBuilder.NullApplicationId) else None
    case SetSecret(x) => if x.None? then Some(TokenBuilder.NullSecret) else None
    case AddCapability(x) => if x.None? then Some(TokenBuilder.NullCapability) else None
    case ExpireIn(_, _) => None
    case ExpireAt(x) => if x.None? then Some(TokenBuilder.NullExpirationDate) else None
    case AuthenticationOnly => None
    case StreamingOnly => None
    case PublishingOnly => None
    case OriginStream(x) => if x.None? then Some(TokenBuilder.NullOriginStreamId) else None
    case Channel(x) => if x.None? then Some(TokenBuilder.NullChannelId) else None
    case ChannelAlias(x) => if x.None? then Some(TokenBuilder.NullChannelAlias) else None
    case RequireTag(x) => if x.None? then Some(TokenBuilder.NullTag) else None
    case ApplyTag(x) => if x.None? then Some(TokenBuilder.NullTag) else None
  }

  /** Performs one call. */
  function Step(b: TokenBuilder.Builder, c: Call): TokenBuilder.Outcome {
    match c
    case SetApplicationId(x) => TokenBuilder.WithApplicationId(b, x)
    case SetSecret(x) => TokenBuilder.WithSecret(b, x)
    case AddCapability(x) => TokenBuilder.WithCapability(b, x)
    case ExpireIn(now, seconds) => Success(TokenBuilder.ExpiresInSeconds(b, now, seconds))
    case ExpireAt(x) => TokenBuilder.ExpiresAt(b, x)
    case AuthenticationOnly => Success(TokenBuilder.ForAuthenticationOnly(b))
    case StreamingOnly => Success(TokenBuilder.ForStreamingOnly(b))
    case PublishingOnly => Success(TokenBuilder.ForPublishingOnly(b))
    case OriginStream(x) => TokenBuilder.ForOriginStream(b, x)
    case Channel(x) => TokenBuilder.ForChannel(b, x)
    case ChannelAlias(x) => TokenBuilder.ForChannelAlias(b, x)
    case RequireTag(x) => TokenBuilder.ForTag(b, x)
    case ApplyTag(x) => TokenBuilder.ApplyTag(b, x)
  }

  /** A call throws exactly when its argument is null, and the builder the caller keeps is
      the one it called. */
  lemma StepRejects(b: TokenBuilder.Builder, c: Call)
    ensures Step(b, c).Failure? <==> Rejection(c).Some?
    ensures Step(b, c).Failure? ==> Step(b, c).error == TokenBuilder.Thrown(Rejection(c).value, b)
  {
    match c
    case SetApplicationId(_) =>
    case SetSecret(_) =>
    case AddCapability(_) =>
    case ExpireIn(_, _) =>
    case ExpireAt(_) =>
    case AuthenticationOnly =>
    case StreamingOnly =>
    case PublishingOnly =>
    case OriginStream(_) =>
    case Channel(_) =>
    case ChannelAlias(_) =>
    case RequireTag(_) =>
    case ApplyTag(_) =>
  }

  /** The claim a call writes into the claims object, with its value; None for calls that
      set the credentials or a list, or that throw. */
  function WrittenClaim(c: Call): Option<Member> {
    match c
    case ExpireIn(now, seconds) => Some(Member(TokenBuilder.FieldExpires, Number(JavaLong.Wrap(now + seconds * 1000))))
    case ExpireAt(Some(date)) => Some(Member(TokenBuilder.FieldExpires, Number(date)))
    case AuthenticationOnly => Some(Member(TokenBuilder.FieldType, String(TokenBuilder.TypeAuth)))
    case StreamingOnly => Some(Member(TokenBuilder.FieldType, String(TokenBuilder.TypeStream)))
    case PublishingOnly => Some(Member(TokenBuilder.FieldType, String(TokenBuilder.TypePublish)))
    case OriginStream(Some(id)) => Some(Member(TokenBuilder.FieldOriginStreamId, String(id)))
    case Channel(Some(id)) => Some(Member(TokenBuilder.FieldRequiredTag, String(TokenBuilder.ChannelIdPrefix + id)))
    case ChannelAlias(Some(alias)) => Some(Member(TokenBuilder.FieldRequiredTag, String(TokenBuilder.ChannelAliasPrefix + alias)))
    case RequireTag(Some(tag)) => Some(Member(TokenBuilder.FieldRequiredTag, String(tag)))
    case _ => None
  }

  /** A successful call sets exactly the claim it writes, or leaves the claims object alone. */
  lemma StepWritesClaim(b: TokenBuilder.Builder, c: Call)
    requires Step(b, c).Success?
    ensures WrittenClaim(c).Some? ==>
      TokenBuilder.SetsClaim(b, WrittenClaim(c).value.name, WrittenClaim(c).value.value, Step(b, c).value)
    ensures WrittenClaim(c).None? ==> Step(b, c).value.claims == b.claims
  {
    match c
    case SetApplicationId(_) =>
    case SetSecret(_) =>
    case AddCapability(_) =>
    case ExpireIn(_, _) =>
    case ExpireAt(_) =>
    case AuthenticationOnly =>
    case StreamingOnly =>
    case PublishingOnly =>
    case OriginStream(_) =>
    case Channel(_) =>
    case ChannelAlias(_) =>
    case RequireTag(_) =>
    case ApplyTag(_) =>
  }

  /** Every claim a call writes is a scalar claim holding a value of its kind. */
  lemma WrittenClaimFits(c: Call)
    ensures WrittenClaim(c).Some? ==>
      && WrittenClaim(c).value.name in TokenBuilder.ScalarFields
      && TokenBuilder.FitsField(WrittenClaim(c).value.name, WrittenClaim(c).value.value)
  {
  }

  /** A successful call changes the credentials and lists only as its own setter says. */
  lemma StepKeepsOtherFields(b: TokenBuilder.Builder, c: Call)
    requires Step(b, c).Success?
    ensures Step(b, c).value.applicationId == (if c.SetApplicationId? then c.applicationId else b.applicationId)
    ensures Step(b, c).value.secret == (if c.SetSecret? then c.secret else b.secret)
    ensures Step(b, c).value.capabilities ==
      if c.AddCapability? then Some(TokenBuilder.Entries(b.capabilities) + [c.capability.value]) else b.capabilities
    ensures Step(b, c).value.applyTags ==
      if c.ApplyTag? then Some(TokenBuilder.Entries(b.applyTags) + [c.appliedTag.value]) else b.applyTags
  {
    match c
    case SetApplicationId(_) =>
    case SetSecret(_) =>
    case AddCapability(_) =>
    case ExpireIn(_, _) =>
    case ExpireAt(_) =>
    case AuthenticationOnly =>
    case StreamingOnly =>
    case PublishingOnly =>
    case OriginStream(_) =>
    case Channel(_) =>
    case ChannelAlias(_) =>
    case RequireTag(_) =>
    case ApplyTag(_) =>
  }

  /** Replays `calls` on a fresh builder, stopping at the first exception. */
  function Run(calls: seq<Call>): TokenBuilder.Outcome
    decreases |calls|
  {
    if |calls| == 0 then Success(TokenBuilder.New())
    else
      match Run(calls[..|calls| - 1])
      case Failure(t) => Failure(t)
      case Success(b) => Step(b, calls[|calls| - 1])
  }

  /** Every builder a chain of calls reaches keeps the builder invariant. */
  lemma {:induction false} RunKeepsWellFormed(calls: seq<Call>)
    ensures Run(calls).Success? ==> TokenBuilder.WellFormed(Run(calls).value)
    decreases |calls|
  {
    if |calls| > 0 {
      var prefix := calls[..|calls| - 1];
      RunKeepsWellFormed(prefix);
      if Run(prefix).Success? {
        StepKeepsWellFormed(Run(prefix).value, calls[|calls| - 1]);
      }
    }
  }

  /** No successful call breaks the builder invariant. */
  lemma StepKeepsWellFormed(b: TokenBuilder.Builder, c: Call)
    requires TokenBuilder.WellFormed(b)
    ensures Step(b, c).Success? ==> TokenBuilder.WellFormed(Step(b, c).value)
  {
    if Step(b, c).Success? {
      var after := Step(b, c).value;
      StepWritesClaim(b, c);
      StepKeepsOtherFields(b, c);
      WrittenClaimFits(c);
      if WrittenClaim(c).Some? {
        TokenBuilder.SetClaimKeepsWellFormed(b, WrittenClaim(c).value.name, WrittenClaim(c).value.value, after);
      }
    }
  }

  /** `i` is the position of the first call that throws. */
  ghost predicate FirstRejected(calls: seq<Call>, i: int) {
    && 0 <= i < |calls|
    && Rejection(calls[i]).Some?
    && forall j :: 0 <= j < i ==> Rejection(calls[j]).None?
  }

  // Reference definitions: the call each claim comes from, read from the end of the chain.

  function LastApplicationId(calls: seq<Call>): Option<string> {
    if |calls| == 0 then None
    else match calls[|calls| - 1]
      case SetApplicationId(Some(id)) => Some(id)
      case _ => LastApplicationId(calls[..|calls| - 1])
  }

  function LastSecret(calls: seq<Call>): Option<string> {
    if |calls| == 0 then None
    else match calls[|calls| - 1]
      case SetSecret(Some(s)) => Some(s)
      case _ => LastSecret(calls[..|calls| - 1])
  }

  function LastType(calls: seq<Call>): Option<string> {
    if |calls| == 0 then None
    else match calls[|calls| - 1]
      case AuthenticationOnly => Some(TokenBuilder.TypeAuth)
      case StreamingOnly => Some(TokenBuilder.TypeStream)
      case PublishingOnly => Some(TokenBuilder.TypePublish)
      case _ => LastType(calls[..|calls| - 1])
  }

  function LastOriginStream(calls: seq<Call>): Option<string> {
    if |calls| == 0 then None
    else match calls[|calls| - 1]
      case OriginStream(Some(id)) => Some(id)
      case _ => LastOriginStream(calls[..|calls| - 1])
  }

  /** forChannel, forChannelAlias and forTag all compete for the one required tag. */
  function LastRequiredTag(calls: seq<Call>): Option<string> {
    if |calls| == 0 then None
    else match calls[|calls| - 1]
      case Channel(Some(id)) => Some(TokenBuilder.ChannelIdPrefix + id)
      case ChannelAlias(Some(alias)) => Some(TokenBuilder.ChannelAliasPrefix + alias)
      case RequireTag(Some(tag)) => Some(tag)
      case _ => LastRequiredTag(calls[..|calls| - 1])
  }

  /** expiresInSeconds and expiresAt compete for the one expiration. */
  function LastExpires(calls: seq<Call>): Option<int> {
    if |calls| == 0 then None
    else match calls[|calls| - 1]
      case ExpireIn(now, seconds) => Some(JavaLong.Wrap(now + seconds * 1000))
      case ExpireAt(Some(date)) => Some(date)
      case _ => LastExpires(calls[..|calls| - 1])
  }

  /** Every capability passed, in call order. */
  function CapabilityArgs(calls: seq<Call>): seq<string> {
    if |calls| == 0 then []
    else match calls[|calls| - 1]
      case AddCapability(Some(c)) => CapabilityArgs(calls[..|calls| - 1]) + [c]
      case _ => CapabilityArgs(calls[..|calls| - 1])
  }

  /** Every tag passed to applyTag, in call order. */
  function ApplyTagArgs(calls: seq<Call>): seq<string> {
    if |calls| == 0 then []
    else match calls[|calls| - 1]
      case ApplyTag(Some(t)) => ApplyTagArgs(calls[..|calls| - 1]) + [t]
      case _ => ApplyTagArgs(calls[..|calls| - 1])
  }

  function AsString(s: Option<string>): Option<Value> {
    if s.Some? then Some(String(s.value)) else None
  }

  function AsNumber(n: Option<int>): Option<Value> {
    if n.Some? then Some(Number(n.value)) else None
  }

  /** A list that exists exactly when it has entries. */
  function Created(entries: seq<string>): Option<seq<string>> {
    if entries == [] then None else Some(entries)
  }

  /** A chain runs to the end exactly when no call gets a null. */
  lemma {:induction false} RunSucceedsIffNoNull(calls: seq<Call>)
    ensures Run(calls).Success? <==> forall i :: 0 <= i < |calls| ==> Rejection(calls[i]).None?
    decreases |calls|
  {
    if |calls| > 0 {
      var n := |calls| - 1;
      var prefix := calls[..n];
      RunSucceedsIffNoNull(prefix);
      assert forall i :: 0 <= i < n ==> calls[i] == prefix[i];
      assert (forall i :: 0 <= i < |calls| ==> Rejection(calls[i]).None?) <==>
        (forall i :: 0 <= i < n ==> Rejection(prefix[i]).None?) && Rejection(calls[n]).None?;
      if Run(prefix).Success? {
        StepRejects(Run(prefix).value, calls[n]);
        assert Run(calls) == Step(Run(prefix).value, calls[n]);
      } else {
        assert Run(calls).Failure?;
      }
    }
  }

  /** A chain that throws stops at the first call that gets a null, with that call's error,
      and the caller keeps the builder as the calls before it left it. */
  lemma {:induction false} RunStopsAtFirstNull(calls: seq<Call>)
    requires Run(calls).Failure?
    ensures exists i ::
      (FirstRejected(calls, i)
       && Run(calls).error.error == Rejection(calls[i]).value
       && Run(calls[..i]) == Success(Run(calls).error.state))
    decreases |calls|
  {
    var n := |calls| - 1;
    var prefix := calls[..n];
    if Run(prefix).Failure? {
      RunStopsAtFirstNull(prefix);
      var i :| FirstRejected(prefix, i)
        && Run(prefix).error.error == Rejection(prefix[i]).value
        && Run(prefix[..i]) == Success(Run(prefix).error.state);
      assert calls[..i] == prefix[..i];
      assert forall j :: 0 <= j <= i ==> calls[j] == prefix[j];
      assert FirstRejected(calls, i);
    } else {
      RunSucceedsIffNoNull(prefix);
      StepRejects(Run(prefix).value, calls[n]);
      assert forall j :: 0 <= j < n ==> calls[j] == prefix[j];
      assert FirstRejected(calls, n);
    }
  }

  /** The application id and secret are those of the last calls that set them. */
  lemma {:induction false} RunKeepsCredentials(calls: seq<Call>)
    requires Run(calls).Success?
    ensures Run(calls).value.applicationId == LastApplicationId(calls)
    ensures Run(calls).value.secret == LastSecret(calls)
    decreases |calls|
  {
    if |calls| > 0 {
      var prefix := calls[..|calls| - 1];
      RunKeepsCredentials(prefix);
      StepKeepsOtherFields(Run(prefix).value, calls[|calls| - 1]);
    }
  }

  /** The type claim is that of the last forAuthenticationOnly, forStreamingOnly or forPublishingOnly call. */
  lemma {:induction false} RunKeepsLastType(calls: seq<Call>)
    requires Run(calls).Success?
    ensures Get(Run(calls).value.claims, TokenBuilder.FieldType) == AsString(LastType(calls))
    decreases |calls|
  {
    if |calls| > 0 {
      var prefix := calls[..|calls| - 1];
      RunKeepsLastType(prefix);
      var c := calls[|calls| - 1];
      StepWritesClaim(Run(prefix).value, c);
      assert Run(calls) == Step(Run(prefix).value, c);
      if c.AuthenticationOnly? || c.StreamingOnly? || c.PublishingOnly? {
        assert WrittenClaim(c).value.name == TokenBuilder.FieldType;
      } else {
        assert LastType(calls) == LastType(prefix);
        assert WrittenClaim(c).None? || WrittenClaim(c).value.name != TokenBuilder.FieldType;
      }
    }
  }

  /** The origin stream claim is that of the last forOriginStream call. */
  lemma {:induction false} RunKeepsLastOriginStream(calls: seq<Call>)
    requires Run(calls).Success?
    ensures Get(Run(calls).value.claims, TokenBuilder.FieldOriginStreamId) == AsString(LastOriginStream(calls))
    decreases |calls|
  {
    if |calls| > 0 {
      var prefix := calls[..|calls| - 1];
      RunKeepsLastOriginStream(prefix);
      var c := calls[|calls| - 1];
      StepWritesClaim(Run(prefix).value, c);
      assert Run(calls) == Step(Run(prefix).value, c);
      if c.OriginStream? {
        assert WrittenClaim(c).value.name == TokenBuilder.FieldOriginStreamId;
      } else {
        assert LastOriginStream(calls) == LastOriginStream(prefix);
        assert WrittenClaim(c).None? || WrittenClaim(c).value.name != TokenBuilder.FieldOriginStreamId;
      }
    }
  }

  /** The required tag is that of the last forTag, forChannel or forChannelAlias call. */
  lemma {:induction false} RunKeepsLastRequiredTag(calls: seq<Call>)
    requires Run(calls).Success?
    ensures Get(Run(calls).value.claims, TokenBuilder.FieldRequiredTag) == AsString(LastRequiredTag(calls))
    decreases |calls|
  {
    if |calls| > 0 {
      var prefix := calls[..|calls| - 1];
      RunKeepsLastRequiredTag(prefix);
      var c := calls[|calls| - 1];
      StepWritesClaim(Run(prefix).value, c);
      assert Run(calls) == Step(Run(prefix).value, c);
      if c.Channel? || c.ChannelAlias? || c.RequireTag? {
        assert WrittenClaim(c).value.name == TokenBuilder.FieldRequiredTag;
      } else {
        assert LastRequiredTag(calls) == LastRequiredTag(prefix);
        assert WrittenClaim(c).None? || WrittenClaim(c).value.name != TokenBuilder.FieldRequiredTag;
      }
    }
  }

  /** The expiration is that of the last expiresInSeconds or expiresAt call. */
  lemma {:induction false} RunKeepsLastExpires(calls: seq<Call>)
    requires Run(calls).Success?
    ensures Get(Run(calls).value.claims, TokenBuilder.FieldExpires) == AsNumber(LastExpires(calls))
    decreases |calls|
  {
    if |calls| > 0 {
      var prefix := calls[..|calls| - 1];
      RunKeepsLastExpires(prefix);
      var c := calls[|calls| - 1];
      StepWritesClaim(Run(prefix).value, c);
      assert Run(calls) == Step(Run(prefix).value, c);
      if c.ExpireIn? || c.ExpireAt? {
        assert WrittenClaim(c).value.name == TokenBuilder.FieldExpires;
      } else {
        assert LastExpires(calls) == LastExpires(prefix);
        assert WrittenClaim(c).None? || WrittenClaim(c).value.name != TokenBuilder.FieldExpires;
      }
    }
  }

  /** Each list holds the arguments of all its calls in call order, and exists only if there was one. */
  lemma {:induction false} RunAppendsLists(calls: seq<Call>)
    requires Run(calls).Success?
    ensures Run(calls).value.capabilities == Created(CapabilityArgs(calls))
    ensures Run(calls).value.applyTags == Created(ApplyTagArgs(calls))
    decreases |calls|
  {
    if |calls| > 0 {
      var prefix := calls[..|calls| - 1];
      RunAppendsLists(prefix);
      StepKeepsOtherFields(Run(prefix).value, calls[|calls| - 1]);
    }
  }

  /** What the signer receives after a chain that ran to the end: the capabilities claim is
      present exactly when some capability was added, and then lists them all in call order;
      likewise the applied tags; no list claim is ever empty. */
  lemma BuildIncludesCalledLists(calls: seq<Call>)
    requires Run(calls).Success?
    ensures var signed := TokenBuilder.Build(Run(calls).value);
      && (TokenBuilder.FieldCapabilities in Names(signed.claims) <==> CapabilityArgs(calls) != [])
      && (CapabilityArgs(calls) != [] ==>
            Get(signed.claims, TokenBuilder.FieldCapabilities) == Some(Array(CapabilityArgs(calls))))
      && (TokenBuilder.FieldApplyTags in Names(signed.claims) <==> ApplyTagArgs(calls) != [])
      && (ApplyTagArgs(calls) != [] ==>
            Get(signed.claims, TokenBuilder.FieldApplyTags) == Some(Array(ApplyTagArgs(calls))))
      && TokenBuilder.ListsNonEmpty(signed.claims)
      && signed.applicationId == LastApplicationId(calls)
      && signed.secret == LastSecret(calls)
  {
    RunKeepsWellFormed(calls);
    RunKeepsCredentials(calls);
    RunAppendsLists(calls);
  }

  /** The four calls of the documented usage, for given credentials, clock reading and channel. */
  function ChannelForAnHour(now: JavaLong.Long, applicationId: string, secret: string, channelId: string): seq<Call> {
    [SetApplicationId(Some(applicationId)), SetSecret(Some(secret)), ExpireIn(now, 3600), Channel(Some(channelId))]
  }

  /** The builder after the documented usage holds the credentials, the channel's tag, the
      expiration and nothing else. */
  lemma ChannelForAnHourState(now: JavaLong.Long, applicationId: string, secret: string, channelId: string)
    requires JavaLong.InRange(now + 3600 * 1000)
    ensures var calls := ChannelForAnHour(now, applicationId, secret, channelId);
      && Run(calls).Success?
      && Run(calls).value.applicationId == Some(applicationId)
      && Run(calls).value.secret == Some(secret)
      && Get(Run(calls).value.claims, TokenBuilder.FieldType) == None
      && Get(Run(calls).value.claims, TokenBuilder.FieldOriginStreamId) == None
      && Get(Run(calls).value.claims, TokenBuilder.FieldRequiredTag) == Some(String("channelId:" + channelId))
      && Get(Run(calls).value.claims, TokenBuilder.FieldExpires) == Some(Number(now + 3600000))
      && Run(calls).value.capabilities == None
      && Run(calls).value.applyTags == None
  {
    var calls := ChannelForAnHour(now, applicationId, secret, channelId);
    RunSucceedsIffNoNull(calls);
    RunKeepsCredentials(calls);
    RunKeepsLastType(calls);
    RunKeepsLastOriginStream(calls);
    RunKeepsLastRequiredTag(calls);
    RunKeepsLastExpires(calls);
    RunAppendsLists(calls);
    ChannelForAnHourReference(now, applicationId, secret, channelId);
  }

  /** What the reference definitions say about the documented usage. */
  lemma ChannelForAnHourReference(now: JavaLong.Long, applicationId: string, secret: string, channelId: string)
    requires JavaLong.InRange(now + 3600 * 1000)
    ensures var calls := ChannelForAnHour(now, applicationId, secret, channelId);
      && LastApplicationId(calls) == Some(applicationId)
      && LastSecret(calls) == Some(secret)
      && LastType(calls) == None
      && LastOriginStream(calls) == None
      && LastRequiredTag(calls) == Some("channelId:" + channelId)
      && LastExpires(calls) == Some(now + 3600000)
      && CapabilityArgs(calls) == []
      && ApplyTagArgs(calls) == []
  {
    var calls := ChannelForAnHour(now, applicationId, secret, channelId);
    var c0, c1, c2, c3 := calls[0], calls[1], calls[2], calls[3];
    assert calls[..3] == [c0, c1, c2] && [c0, c1, c2][..2] == [c0, c1];
    assert [c0, c1][..1] == [c0] && [c0][..0] == [];
    assert LastType(calls) == LastType([c0, c1, c2]) == LastType([c0, c1]) == LastType([c0]) == None;
    assert LastOriginStream(calls) == LastOriginStream([c0, c1, c2]) == LastOriginStream([c0, c1])
        == LastOriginStream([c0]) == None;
    assert LastExpires(calls) == LastExpires([c0, c1, c2]) == Some(now + 3600000);
    assert CapabilityArgs(calls) == CapabilityArgs([c0, c1, c2]) == CapabilityArgs([c0, c1])
        == CapabilityArgs([c0]) == [];
    assert ApplyTagArgs(calls) == ApplyTagArgs([c0, c1, c2]) == ApplyTagArgs([c0, c1]) == ApplyTagArgs([c0]) == [];
    assert LastSecret(calls) == LastSecret([c0, c1, c2]) == Some(secret);
    assert LastApplicationId(calls) == LastApplicationId([c0, c1, c2]) == LastApplicationId([c0, c1])
        == Some(applicationId);
  }

  /** The documented usage: application id, secret, an expiry an hour after `now`, and a
      channel (for example "my-application-id", "my-secret" and
      "us-northeast#my-application-id#my-channel.1345"). The signer receives the credentials
      and exactly two claims, the channel's required tag and the expiration
      `now` + 3,600,000 ms, and no list. */
  lemma ChannelTokenForAnHour(now: JavaLong.Long, applicationId: string, secret: string, channelId: string)
    requires JavaLong.InRange(now + 3600 * 1000)
    ensures var calls := ChannelForAnHour(now, applicationId, secret, channelId);
      && Run(calls).Success?
      && var signed := TokenBuilder.Build(Run(calls).value);
      && signed.applicationId == Some(applicationId)
      && signed.secret == Some(secret)
      && Names(signed.claims) == {TokenBuilder.FieldRequiredTag, TokenBuilder.FieldExpires}
      && Get(signed.claims, TokenBuilder.FieldRequiredTag) == Some(String("channelId:" + channelId))
      && Get(signed.claims, TokenBuilder.FieldExpires) == Some(Number(now + 3600000))
  {
    ChannelForAnHourState(now, applicationId, secret, channelId);
    RunKeepsWellFormed(ChannelForAnHour(now, applicationId, secret, channelId));
    var b := Run(ChannelForAnHour(now, applicationId, secret, channelId)).value;
    var names := Names(TokenBuilder.Build(b).claims);
    assert names == Names(b.claims);
    assert names <= TokenBuilder.ScalarFields;
    assert TokenBuilder.FieldType !in names && TokenBuilder.FieldOriginStreamId !in names;
    assert TokenBuilder.FieldRequiredTag in names && TokenBuilder.FieldExpires in names;
  }
}
