/**
 The request check for a status change of a card application (`CardStatusUpdateSerializer`,
 cards/serializers.py): the declared fields (a required choice of target status, an optional
 rejection reason that may be blank) followed by the serializer's own `validate`.
 */
module StatusValidation {
  import opened Wrappers
  import opened CardModels

  /** The request body as received: either field may be missing. */
  datatype StatusRequest = StatusRequest(status: Option<string>, rejectionReason: Option<string>)

  /** The validated data: the chosen status and the reason, if one was sent. */
  datatype StatusData = StatusData(status: Status, rejectionReason: Option<string>)

  datatype ValidationError =
    | StatusRequired     // the `status` field is missing
    | InvalidChoice      // `status` is not one of `STATUS_CHOICES`
    | ReasonRequired     // rejection without a (non-empty) reason
    | ReasonTooShort     // rejection reason shorter than 10 characters once stripped

  /** The shortest rejection reason accepted, counted after stripping. */
  const MinReasonLength: nat := 10

  // ---------------------------------------------------------------------------------------
  // Python's `str.strip()`
  // ---------------------------------------------------------------------------------------

  /** The characters Python's `str.isspace` accepts, which `str.strip()` removes. */
  predicate IsWhitespace(c: char)
  {
    ('\t' <= c <= '\r') || ('\U{1C}' <= c <= ' ') || c == '\U{85}' || c == '\U{A0}'
    || c == '\U{1680}' || ('\U{2000}' <= c <= '\U{200A}') || c == '\U{2028}' || c == '\U{2029}'
    || c == '\U{202F}' || c == '\U{205F}' || c == '\U{3000}'
  }

  /** The number of whitespace characters at the start of `s`. */
  function LeadingWhitespace(s: string): (k: nat)
    ensures k <= |s|
    ensures forall i :: 0 <= i < k ==> IsWhitespace(s[i])
    ensures k < |s| ==> !IsWhitespace(s[k])
  {
    if |s| == 0 || !IsWhitespace(s[0]) then 0 else 1 + LeadingWhitespace(s[1..])
  }

  /** The number of whitespace characters at the end of `s`. */
  function TrailingWhitespace(s: string): (k: nat)
    ensures k <= |s|
    ensures forall i :: |s| - k <= i < |s| ==> IsWhitespace(s[i])
    ensures k < |s| ==> !IsWhitespace(s[|s| - 1 - k])
  {
    if |s| == 0 || !IsWhitespace(s[|s| - 1]) then 0 else 1 + TrailingWhitespace(s[..|s| - 1])
  }

  /** `s.strip()`: `s` without its leading and trailing whitespace. */
  function Strip(s: string): (r: string)
    ensures |r| <= |s|
    ensures |r| > 0 ==> !IsWhitespace(r[0]) && !IsWhitespace(r[|r| - 1])
  {
    var front := s[LeadingWhitespace(s)..];
    front[..|front| - TrailingWhitespace(front)]
  }

  /** `Strip` removes only whitespace: what remains is a contiguous part of `s`. */
  lemma StripIsInfix(s: string)
    ensures exists i, j ::
              && 0 <= i <= j <= |s| && Strip(s) == s[i..j]
              && (forall k :: 0 <= k < i ==> IsWhitespace(s[k]))
              && (forall k :: j <= k < |s| ==> IsWhitespace(s[k]))
  {
    var i := LeadingWhitespace(s);
    var front := s[i..];
    var t := TrailingWhitespace(front);
    var j := i + |front| - t;
    assert Strip(s) == s[i..j];
    assert forall k :: j <= k < |s| ==> s[k] == front[k - i];
  }

  /** A string of whitespace only strips to the empty string. */
  lemma StripAllWhitespace(s: string)
    requires forall i :: 0 <= i < |s| ==> IsWhitespace(s[i])
    ensures Strip(s) == ""
  {
  }

  // ---------------------------------------------------------------------------------------
  // Field checks and `validate`
  // ---------------------------------------------------------------------------------------

  /** The `ChoiceField` over `STATUS_CHOICES`: only APPROVED and REJECTED are accepted. */
  function ParseStatusChoice(value: string): Option<Status>
  {
    if value == "APPROVED" then Some(Approved)
    else if value == "REJECTED" then Some(Rejected)
    else None
  }

  /** The declared fields: `status` is required and must be a choice; the reason is optional. */
  function ValidateFields(request: StatusRequest): Result<StatusData, ValidationError>
  {
    match request.status
    case None => Err(StatusRequired)
    case Some(value) =>
      match ParseStatusChoice(value)
      case None => Err(InvalidChoice)
      case Some(status) => Ok(StatusData(status, request.rejectionReason))
  }

  /** `CardStatusUpdateSerializer.validate`: a rejection needs a reason of at least 10 characters. */
  function Validate(data: StatusData): Result<StatusData, ValidationError>
  {
    if data.status == Rejected then
      match data.rejectionReason
      case None => Err(ReasonRequired)
      case Some(reason) =>
        if reason == "" then Err(ReasonRequired)
        else if |Strip(reason)| < MinReasonLength then Err(ReasonTooShort)
        else Ok(data)
    else Ok(data)
  }

  /** `serializer.is_valid()`: the field checks, then `validate` on what they produce. */
  function RunValidation(request: StatusRequest): Result<StatusData, ValidationError>
  {
    match ValidateFields(request)
    case Err(e) => Err(e)
    case Ok(data) => Validate(data)
  }

  /** A request is accepted for reasons stated without reference to the order of the checks. */
  predicate AcceptableRequest(request: StatusRequest)
  {
    request.status == Some("APPROVED")
    || (request.status == Some("REJECTED") && request.rejectionReason.Some?
        && |Strip(request.rejectionReason.value)| >= MinReasonLength)
  }

  /** Validation succeeds exactly on acceptable requests, and then hands the data on unchanged. */
  lemma ValidationAcceptsExactly(request: StatusRequest)
    ensures RunValidation(request).Ok? <==> AcceptableRequest(request)
    ensures RunValidation(request).Ok? ==>
      RunValidation(request).value.rejectionReason == request.rejectionReason &&
      Some(if RunValidation(request).value.status == Approved then "APPROVED" else "REJECTED")
        == request.status
  {
    if request.status == Some("REJECTED") && request.rejectionReason == Some("") {
      assert Strip("") == "";
    }
  }

  /** Every accepted target is APPROVED or REJECTED; PENDING is refused. */
  lemma PendingIsNotATarget(request: StatusRequest)
    ensures RunValidation(request).Ok? ==> RunValidation(request).value.status != Pending
    ensures request.status == Some("PENDING") ==> RunValidation(request) == Err(InvalidChoice)
  {
  }

  /** `validate` returns its input unchanged when it succeeds. */
  lemma ValidateKeepsData(data: StatusData)
    ensures Validate(data).Ok? ==> Validate(data).value == data
  {
  }

  /** A rejection with a missing or empty reason fails with the "required" error. */
  lemma RejectionNeedsReason(reason: Option<string>)
    requires reason == None || reason == Some("")
    ensures RunValidation(StatusRequest(Some("REJECTED"), reason)) == Err(ReasonRequired)
  {
  }

  /** A rejection whose stripped reason is shorter than 10 characters fails as too short. */
  lemma RejectionNeedsLongReason(reason: string)
    requires reason != "" && |Strip(reason)| < MinReasonLength
    ensures RunValidation(StatusRequest(Some("REJECTED"), Some(reason))) == Err(ReasonTooShort)
  {
  }

  /** A reason of whitespace only passes the emptiness check but fails the length check. */
  lemma BlankReasonIsTooShort(reason: string)
    requires reason != "" && forall i :: 0 <= i < |reason| ==> IsWhitespace(reason[i])
    ensures RunValidation(StatusRequest(Some("REJECTED"), Some(reason))) == Err(ReasonTooShort)
  {
    StripAllWhitespace(reason);
  }

  /** Approval is accepted with or without a reason. */
  lemma ApprovalNeedsNoReason(reason: Option<string>)
    ensures RunValidation(StatusRequest(Some("APPROVED"), reason)) == Ok(StatusData(Approved, reason))
  {
  }
}
