/**
 What each provider response is taken for (workers/push/apns-transport.ts, workers/push/fcm-transport.ts):
 for both classifiers, every kind of outcome has its own statuses and bodies.
 */
module PushClassifiers {
  import opened Wrappers
  import opened SendOutcomes
  import opened DirectSend

  // ----- APNs -----

  /** The message ID the response carries, if it is a well-formed one. */
  predicate HasApnsId(r: ApnsResponse, reference: Option<string>) {
    if r.apnsId.Some? && IsApnsId(r.apnsId.value) then reference == r.apnsId else reference.None?
  }

  /** An error response: another status than 200, with a body that is one JSON record of bounded size. */
  predicate IsApnsError(r: ApnsResponse) {
    100 <= r.status <= 599 && r.status != 200 && 2 <= r.byteLength <= 16_384 && r.body.Some?
  }

  predicate IsUnregistered(r: ApnsResponse) {
    IsApnsError(r) && r.status == 410 && r.body.value.reason == "Unregistered"
  }

  /** With a time that ECMAScript can hold. */
  predicate IsTimed(r: ApnsResponse) {
    r.body.Some? && r.body.value.timestamp.Some? && r.body.value.timestamp.value <= 8_640_000_000_000_000
  }

  predicate IsBadToken(r: ApnsResponse) {
    IsApnsError(r) && r.status == 400 && r.body.value.reason in {"BadDeviceToken", "DeviceTokenNotForTopic"}
  }

  /** The one kind of response that the provider has taken: 200, empty, with a message ID. */
  lemma ApnsAcceptedIff(r: ApnsResponse, id: string)
    ensures ClassifyApns(r) == AcceptedPush(id) <==>
              r.status == 200 && r.byteLength == 0 && r.apnsId == Some(id) && IsApnsId(id)
  {
  }

  /** Worth another attempt: throttled, or an error of the server; and nothing else. */
  lemma ApnsRetryableIff(r: ApnsResponse, reason: DirectReason, reference: Option<string>)
    requires HasApnsId(r, reference)
    ensures ClassifyApns(r) == RetryablePush(reason, reference) <==>
              && IsApnsError(r)
              && ((r.status == 429 && reason == ApnsThrottled) || (r.status >= 500 && reason == ApnsServerError))
    ensures ClassifyApns(r).kind.RetryableFailureKind? <==> IsApnsError(r) && (r.status == 429 || r.status >= 500)
  {
  }

  /** The endpoint is dead: it unregistered at a time, or its token is not one of this topic. */
  lemma ApnsInvalidatingIff(r: ApnsResponse, reference: Option<string>, milliseconds: nat)
    requires HasApnsId(r, reference)
    ensures ClassifyApns(r) == InvalidatingPush(ApnsUnregistered, reference, Some(IsoTime(milliseconds))) <==>
              IsUnregistered(r) && IsTimed(r) && r.body.value.timestamp.value == milliseconds
    ensures ClassifyApns(r) == InvalidatingPush(ApnsBadDeviceToken, reference, None) <==> IsBadToken(r)
    ensures ClassifyApns(r).kind.InvalidatingKind? <==> IsBadToken(r) || (IsUnregistered(r) && IsTimed(r))
  {
  }

  /** Refused for good: the credential, the topic, or the payload, for every error that is none of the above. */
  lemma ApnsTerminalIff(r: ApnsResponse, reason: DirectReason, reference: Option<string>)
    requires HasApnsId(r, reference)
    ensures ClassifyApns(r) == TerminalPush(reason, reference) <==>
              && IsApnsError(r) && r.status != 429 && r.status < 500 && !IsBadToken(r) && !IsUnregistered(r)
              && reason == if r.status == 401 || r.status == 403 then ApnsAuthenticationFailed
                           else if r.body.value.reason in {"BadTopic", "MissingTopic", "TopicDisallowed"}
                           then ApnsTopicRejected
                           else ApnsPayloadRejected
  {
  }

  /** Everything else proves nothing, and is called an invalid response. */
  lemma ApnsUnknownIff(r: ApnsResponse, reference: Option<string>)
    requires HasApnsId(r, reference)
    ensures ClassifyApns(r) == UnknownPush(ApnsResponseInvalid, reference) <==>
              if r.status == 200 then r.byteLength != 0 || reference.None?
              else !IsApnsError(r) || (IsUnregistered(r) && !IsTimed(r))
    ensures ClassifyApns(r).kind.UnknownKind? ==> ClassifyApns(r) == UnknownPush(ApnsResponseInvalid, reference)
  {
  }

  // ----- FCM -----

  lemma {:induction false} LastCode(details: seq<FcmDetail>, code: string)
    ensures LastErrorCode(details) == Some(code) <==>
              exists i :: 0 <= i < |details| && details[i] == FcmError(code) &&
                          forall j :: i < j < |details| ==> !details[j].FcmError?
  {
    if details != [] {
      var front, last := details[..|details| - 1], details[|details| - 1];
      LastCode(front, code);
      if last == FcmError(code) {
        assert details[|front|] == FcmError(code);
      }
      if i :| 0 <= i < |front| && front[i] == FcmError(code) && forall j :: i < j < |front| ==> !front[j].FcmError? {
        assert details[i] == FcmError(code);
      }
    }
  }

  /** An error body that is well-formed, bounded and of the response's own status. */
  predicate IsFcmError(r: FcmResponse) {
    && r.status != 200 && r.body.ErrorBody? && r.body.error.code == r.status
    && |r.body.error.details| <= 16 && MalformedDetail !in r.body.error.details
  }

  /** The last error code of the body's details. */
  ghost predicate HasCode(r: FcmResponse, code: string) {
    && r.body.ErrorBody?
    && var details := r.body.error.details;
       exists i :: 0 <= i < |details| && details[i] == FcmError(code) &&
                   forall j :: i < j < |details| ==> !details[j].FcmError?
  }

  ghost predicate IsFcmUnregistered(r: FcmResponse) {
    IsFcmError(r) && (r.status == 400 || r.status == 404) && HasCode(r, "UNREGISTERED")
  }

  /** The request was malformed, or, where this side had validated it, the token was. */
  ghost predicate IsInvalidArgument(r: FcmResponse) {
    && IsFcmError(r) && !IsFcmUnregistered(r) && r.status == 400
    && (r.body.error.status == "INVALID_ARGUMENT" || HasCode(r, "INVALID_ARGUMENT"))
  }

  ghost predicate IsFcmThrottled(r: FcmResponse) {
    && IsFcmError(r) && !IsFcmUnregistered(r) && !IsInvalidArgument(r)
    && (r.status == 429 || r.body.error.status == "RESOURCE_EXHAUSTED")
  }

  ghost predicate IsFcmServerError(r: FcmResponse) {
    && IsFcmError(r) && !IsFcmUnregistered(r) && !IsInvalidArgument(r) && !IsFcmThrottled(r)
    && (r.status >= 500 || r.body.error.status == "UNAVAILABLE" || r.body.error.status == "INTERNAL")
  }

  lemma CodesAre(r: FcmResponse)
    requires IsFcmError(r)
    ensures var code := ParsedError(r.body.error).value.fcmErrorCode;
            ParsedError(r.body.error).Some? && forall c :: code == Some(c) <==> HasCode(r, c)
  {
    forall c
      ensures LastErrorCode(r.body.error.details) == Some(c) <==> HasCode(r, c)
    {
      LastCode(r.body.error.details, c);
    }
  }

  /** What every FCM error response is taken for. */
  lemma FcmErrorTells(r: FcmResponse, locallyValidated: bool, sha256: string -> string)
    requires IsFcmError(r)
    ensures ClassifyFcm(r, locallyValidated, sha256) ==
            if IsFcmUnregistered(r) then InvalidatingPush(FcmUnregistered, None, None)
            else if IsInvalidArgument(r) then
              if locallyValidated && BadRequest !in r.body.error.details
              then InvalidatingPush(FcmInvalidArgument, None, None)
              else TerminalPush(FcmPayloadInvalid, None)
            else if IsFcmThrottled(r) then RetryablePush(FcmThrottled, None)
            else if IsFcmServerError(r) then RetryablePush(FcmServerError, None)
            else TerminalPush(if r.status in {401, 403} then FcmAuthenticationFailed else FcmPayloadInvalid, None)
  {
    hide ParsedError, HasCode;
    CodesAre(r);
    ParsedFields(r.body.error);
  }

  lemma ParsedFields(body: FcmErrorBody)
    ensures ParsedError(body).Some? ==>
              var e := ParsedError(body).value;
              e.code == body.code && e.status == body.status && e.hasBadRequest == (BadRequest in body.details)
  {
  }

  /** Taken by the provider: a 200 that names the message, whose digest becomes the reference. */
  lemma FcmAcceptedIff(r: FcmResponse, locallyValidated: bool, sha256: string -> string, reference: string)
    ensures ClassifyFcm(r, locallyValidated, sha256) == AcceptedPush(reference) <==>
              && r.status == 200 && r.body.MessageName? && 1 <= |r.body.name| <= 2_048
              && reference == "fcm-" + sha256(r.body.name)
  {
  }

  lemma NotAnFcmError(r: FcmResponse, locallyValidated: bool, sha256: string -> string)
    requires r.status != 200 && !IsFcmError(r)
    ensures ClassifyFcm(r, locallyValidated, sha256) == UnknownPush(FcmResponseInvalid, None)
  {
  }

  /** Worth another attempt: throttled, or an error of the server; and nothing else. */
  lemma FcmRetryableIff(r: FcmResponse, locallyValidated: bool, sha256: string -> string, reason: DirectReason)
    ensures ClassifyFcm(r, locallyValidated, sha256) == RetryablePush(reason, None) <==>
              || (IsFcmThrottled(r) && reason == FcmThrottled)
              || (IsFcmServerError(r) && reason == FcmServerError)
    ensures ClassifyFcm(r, locallyValidated, sha256).kind.RetryableFailureKind? <==>
              IsFcmThrottled(r) || IsFcmServerError(r)
  {
    FcmKinds(r, locallyValidated, sha256);
  }

  lemma FcmKinds(r: FcmResponse, locallyValidated: bool, sha256: string -> string)
    ensures IsFcmError(r) ==> ClassifyFcm(r, locallyValidated, sha256).kind !in {AcceptedKind, UnknownKind}
    ensures !IsFcmError(r) ==> ClassifyFcm(r, locallyValidated, sha256).kind in {AcceptedKind, UnknownKind}
    ensures ClassifyFcm(r, locallyValidated, sha256) == RetryablePush(FcmThrottled, None) <==> IsFcmThrottled(r)
    ensures ClassifyFcm(r, locallyValidated, sha256) == RetryablePush(FcmServerError, None) <==> IsFcmServerError(r)
    ensures ClassifyFcm(r, locallyValidated, sha256).kind.RetryableFailureKind? <==>
              IsFcmThrottled(r) || IsFcmServerError(r)
    ensures ClassifyFcm(r, locallyValidated, sha256).kind.RetryableFailureKind? ==>
              ClassifyFcm(r, locallyValidated, sha256).reason in {Known(FcmThrottled), Known(FcmServerError)}
  {
    hide HasCode;
    if IsFcmError(r) {
      FcmErrorTells(r, locallyValidated, sha256);
    } else if r.status != 200 {
      NotAnFcmError(r, locallyValidated, sha256);
    }
  }

  /** The endpoint is dead: it unregistered, or a request this side had validated names a bad argument. */
  lemma FcmInvalidatingIff(r: FcmResponse, locallyValidated: bool, sha256: string -> string)
    ensures ClassifyFcm(r, locallyValidated, sha256) == InvalidatingPush(FcmUnregistered, None, None) <==>
              IsFcmUnregistered(r)
    ensures ClassifyFcm(r, locallyValidated, sha256) == InvalidatingPush(FcmInvalidArgument, None, None) <==>
              IsInvalidArgument(r) && locallyValidated && BadRequest !in r.body.error.details
    ensures ClassifyFcm(r, locallyValidated, sha256).kind.InvalidatingKind? ==>
              IsFcmUnregistered(r) || IsInvalidArgument(r)
  {
    hide HasCode;
    if IsFcmError(r) {
      FcmErrorTells(r, locallyValidated, sha256);
    }
  }

  /** Everything else: refused for good as an error that is none of the above, or nothing proved. */
  lemma FcmTerminalOrUnknown(r: FcmResponse, locallyValidated: bool, sha256: string -> string)
    ensures var o := ClassifyFcm(r, locallyValidated, sha256);
            && (o.kind.TerminalFailureKind? <==>
                  && IsFcmError(r) && !IsFcmUnregistered(r) && !IsFcmThrottled(r) && !IsFcmServerError(r)
                  && (IsInvalidArgument(r) ==> !locallyValidated || BadRequest in r.body.error.details))
            && (o == TerminalPush(FcmAuthenticationFailed, None) <==>
                  o.kind.TerminalFailureKind? && (r.status == 401 || r.status == 403))
            && (o.kind.TerminalFailureKind? && r.status != 401 && r.status != 403 ==>
                  o == TerminalPush(FcmPayloadInvalid, None))
            && (o == UnknownPush(FcmResponseInvalid, None) <==>
                  if r.status == 200 then !(r.body.MessageName? && 1 <= |r.body.name| <= 2_048) else !IsFcmError(r))
  {
    hide HasCode;
    if IsFcmError(r) {
      FcmErrorTells(r, locallyValidated, sha256);
    } else if r.status != 200 {
      NotAnFcmError(r, locallyValidated, sha256);
    }
  }
}
