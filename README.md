# Credit-card applications: card numbers, status workflow, validation and permissions

A Dafny model of the card-application core of a small web backend in which users apply for
credit cards and administrators or managers approve or reject the applications. Four pieces
are modelled, each in its own module:

- `CardNumbers` (card_numbers.dfy) — the card-number engine `CardNumberGenerator`: the mod-10
  check digit (`CalculateLuhnChecksum`, a method with the code's loop, proved against the
  positional reference `Total`), the validity test `IsValidCardNumber`, and the generation of
  a number from a six-digit issuer prefix, entropy digits and the check digit
  (`GenerateUniqueNumber`). The SHA-256 hex digest that supplies the entropy is a parameter.
- `CardViews` (card_views.dfy) — the workflow of the card views: creating a PENDING
  application, the status update (a `CreditCard` class whose `UpdateStatus` assigns the fields
  in place, specified by the function `ApplyStatusUpdate`), the visibility rule of
  `get_queryset` and the ADMIN-only delete.
- `StatusValidation` (status_validation.dfy) — `CardStatusUpdateSerializer`: the declared
  fields (a required choice of APPROVED or REJECTED, an optional reason) and `validate`, which
  demands a reason of at least 10 characters after Python's `strip()` for a rejection.
- `Permissions` (permissions.dfy) — the three role predicates over the four roles of
  `UserModels` (models.dfy); `CardModels` holds the status enumeration, `Wrappers` `Option`
  and `Result`.

Where the code departs from the ISO/IEC 7812-1 formula its name suggests, or from what a reader might expect of it, the model follows the code:

- The check digit is not the Luhn digit of ISO/IEC 7812-1, Annex B. The code leaves the
  rightmost payload digit undoubled and doubles every second digit to its left, which is the
  pattern the standard uses when *validating* a full number. For the payload `7992739871` it
  yields 4 where the standard yields 3 (`DiffersFromIsoLuhn`); in general it is the standard
  digit of the payload with a `0` appended (`IsoDigitWithTrailingZero`). Numbers remain
  consistent with the code's own validity test, which reuses the same routine.
- An unknown card type silently gets the VISA prefix `400000` and length 16.
- A digest with too few decimal characters is not a failure: the account part is silently
  shorter, so the number is shorter than the network's length.
- The validity test has no card-type or length check; it only checks digits and the check digit.

## Model

| member | source | states |
|---|---|---|
| CardNumbers.CalculateLuhnChecksum | cards/services.py:48-55 | the loop over `digits[-2::-2]` on top of `sum(digits[-1::-2])` returns exactly the one-character check digit `LuhnChecksum` of the positional definition |
| CardNumbers.SplitSumIsTotal | cards/services.py:49-54 | the code's split into undoubled `digits[-1::-2]` and doubled `digits[-2::-2]` adds up to the positional total in which the rightmost payload digit is undoubled and doubling alternates leftwards |
| CardNumbers.CheckDigitOf | cards/services.py:55 | `(10 - total % 10) % 10` is a digit below ten, and adding it to the total gives a multiple of ten |
| CardNumbers.LuhnCheckDigit | cards/services.py:48-55 | the check digit is below ten and completes the payload's weighted total to a multiple of ten |
| CardNumbers.LuhnChecksum | cards/services.py:55 | the checksum is always exactly one character in '0'..'9' |
| CardNumbers.EmptyPayloadChecksum | cards/services.py:49-55 | the empty payload has check digit '0' |
| CardNumbers.NonDigitIsInvalid | cards/services.py:59-60 | the empty string and any string with a character outside ASCII '0'..'9' are invalid (non-ASCII digits are listed under Left out) |
| CardNumbers.ChecksumRoundTrip | cards/services.py:43-45 | for every digit payload, the payload followed by its checksum passes `is_valid_card_number` |
| CardNumbers.CheckDigitIsUnique | cards/services.py:61 | a digit payload followed by a digit is valid if and only if that digit is the payload's checksum |
| CardNumbers.DoubledDigitSumCases | cards/services.py:54 | `sum(divmod(2d, 10))` is `2d` for digits below five and `2d - 9` from five on |
| CardNumbers.WeightIsInjective | cards/services.py:51-54 | a digit's contribution, doubled or not, is a digit, and distinct digits contribute differently |
| CardNumbers.TotalUpdate | cards/services.py:51-54 | replacing one digit changes the total by exactly the change in that position's contribution |
| CardNumbers.CheckDigitsDiffer | cards/services.py:55 | two totals differing by a nonzero change of one contribution give different check digits |
| CardNumbers.PayloadChangeChangesChecksum | cards/services.py:48-55 | changing any one digit of a payload changes its checksum |
| CardNumbers.SingleDigitErrorDetected | cards/services.py:58-61 | changing any single digit of a valid number, check digit included, makes it invalid |
| CardNumbers.IsoCheckDigit | cards/services.py:48-55 | the standard's check digit (rightmost payload digit doubled), for comparison: a digit completing that total to a multiple of ten |
| CardNumbers.IsoDigitWithTrailingZero | cards/services.py:50-51 | the code's check digit of a payload equals the standard check digit of the payload followed by '0' |
| CardNumbers.DiffersFromIsoLuhn | cards/services.py:50-55 | for payload 7992739871 the code gives '4' while the standard gives 3 |
| CardNumbers.BinPrefix | cards/services.py:7-11 | every prefix the table lookup yields is six digits |
| CardNumbers.UnknownTypeUsesVisaPrefix | cards/services.py:16 | a card type not in the table gets the VISA prefix '400000' |
| CardNumbers.AccountLength | cards/services.py:33-34 | the account part needs the total length minus seven digits: 8 for AMEX, 9 otherwise |
| CardNumbers.NumericHash | cards/services.py:30 | the filtered digest is all digits and no longer than the digest |
| CardNumbers.NumericHashAppend | cards/services.py:30 | the filter keeps order: filtering a concatenation concatenates the filtered parts |
| CardNumbers.NumericHashMembers | cards/services.py:30 | a character survives the filter exactly when it is in the digest and is a decimal digit |
| CardNumbers.NumericHashOfDigits | cards/services.py:30 | a string of digits passes the filter unchanged |
| CardNumbers.Take | cards/services.py:37 | the slice `s[:n]` is a prefix of `s` of length `min(n, len(s))` |
| CardNumbers.GenerateUniqueNumber | cards/services.py:14-45 | the generated number passes `is_valid_card_number`, starts with the card type's prefix, is never longer than 15 (AMEX) or 16, has full length exactly when the digest has enough digits, has exactly prefix + 1 + min(digits available, account length) characters, and its account part is a prefix of the digest's digits; with `CheckDigitIsUnique` this fixes the number exactly |
| CardNumbers.NoEntropyDigits | cards/services.py:37-45 | a digest without decimal characters gives just the prefix and its check digit |
| CardNumbers.FullLengthNumbers | cards/services.py:33-45 | with at least nine digest digits, VISA and MASTERCARD numbers have 16 digits and AMEX numbers 15 |
| StatusValidation.LeadingWhitespace | cards/serializers.py:54 | counts exactly the whitespace characters that begin the string |
| StatusValidation.TrailingWhitespace | cards/serializers.py:54 | counts exactly the whitespace characters that end the string |
| StatusValidation.Strip | cards/serializers.py:54 | `strip()` never lengthens a string, and a non-empty result neither starts nor ends with whitespace |
| StatusValidation.StripIsInfix | cards/serializers.py:54 | `strip()` removes only leading and trailing whitespace, leaving a contiguous part of the string |
| StatusValidation.StripAllWhitespace | cards/serializers.py:54 | a string of whitespace strips to the empty string |
| StatusValidation.ValidationAcceptsExactly | cards/serializers.py:37-59 | a request passes exactly when it approves, or rejects with a reason of at least 10 characters after stripping; the validated data carries the requested status and the reason unchanged |
| StatusValidation.PendingIsNotATarget | cards/serializers.py:38-43 | no validated status is PENDING, and a request for PENDING fails as an invalid choice |
| StatusValidation.ValidateKeepsData | cards/serializers.py:59 | `validate` returns its input unchanged when it succeeds |
| StatusValidation.RejectionNeedsReason | cards/serializers.py:48-53 | a rejection with a missing or empty reason fails with the "reason required" error |
| StatusValidation.RejectionNeedsLongReason | cards/serializers.py:54-57 | a rejection with a non-empty reason shorter than 10 once stripped fails as too short |
| StatusValidation.BlankReasonIsTooShort | cards/serializers.py:50-57 | a non-empty reason of whitespace only passes the emptiness check and fails the length check |
| StatusValidation.ApprovalNeedsNoReason | cards/serializers.py:48 | APPROVED is accepted with or without a reason |
| Permissions.AdminOrManagerRoles | cards/permissions.py:4-5 | `IsAdminOrManager` grants exactly ADMIN and MANAGER and refuses EMPLOYEE and USER |
| Permissions.AdminImpliesAdminOrManager | cards/permissions.py:13-15 | `IsAdmin` implies `IsAdminOrManager`, and MANAGER shows the converse fails |
| Permissions.StaffAccessEveryObject | cards/permissions.py:8-10 | ADMIN and MANAGER have object access to every object, owned or not |
| Permissions.OthersAccessOwnObjects | cards/permissions.py:11 | USER and EMPLOYEE have object access exactly to objects they own |
| Permissions.ObjectPermissionIsStaffOrOwner | cards/permissions.py:8-11 | object access for any role is staff access or ownership |
| CardViews.NewApplicationIsPending | cards/views.py:51-56 | a new application belongs to the requester, is PENDING, has neither approver nor reason, and is of the requested type or VISA |
| CardViews.CreditCard.constructor | cards/views.py:51-56 | the constructed card holds exactly the fields of a new application |
| CardViews.OnlyPendingCardsChange | cards/views.py:147-160 | an update of a card that is not PENDING changes nothing and ends in the validation error or in "not pending" with the current status |
| CardViews.UpdateSucceedsExactly | cards/views.py:149-163 | an update succeeds if and only if the request is acceptable and the card is PENDING |
| CardViews.UpdateSetsDecision | cards/views.py:163-171 | after a successful update the status is the requested APPROVED or REJECTED; approval records the approver and clears the reason, rejection clears the approver and stores the reason as sent |
| CardViews.UpdateKeepsOtherFields | cards/views.py:162-173 | owner, card number, card type and credit limit never change in a status update |
| CardViews.DecisionsAreFinal | cards/views.py:153-163 | once APPROVED or REJECTED, every further update is refused and leaves the card unchanged |
| CardViews.NewApplicationCanBeDecided | cards/views.py:51-56 | a freshly created application is decided by any acceptable request |
| CardViews.CreditCard.UpdateStatus | cards/views.py:150-171 | the in-place field assignments leave the card in the state, and return the outcome, that `ApplyStatusUpdate` gives for its old state |
| CardViews.PostStatusUpdate | cards/views.py:106-114 | non-staff requesters are refused without change, a missing card gives "not found", and otherwise exactly the found card is updated as `ApplyStatusUpdate` says |
| CardViews.OwnedByMembers | cards/views.py:27 | `filter(user=user)` keeps exactly the cards the user owns |
| CardViews.StaffSeeAllCards | cards/views.py:25-26 | ADMIN and MANAGER see every card |
| CardViews.VisibleExactlyWithObjectPermission | cards/views.py:23-27 | a card is listed exactly when `IsAdminOrManagerOrOwner` grants the requester access to it |
| CardViews.OnlyAdminDeletes | cards/views.py:96-102 | a delete succeeds exactly for ADMIN on an existing card and removes only that card; anyone else is refused and nothing changes |

## Left out

- The entropy sources (`datetime.now()`, `random.randint`, `hashlib.sha256`, cards/services.py:19-27): the clock, randomness and the hash are not modelled; the hex digest is the parameter `hashHex` of `GenerateUniqueNumber`, whose contract holds for every digest.
- Uniqueness of card numbers is a database constraint (`unique=True`) and is not modelled.
- Digits are the ASCII characters '0'..'9'; non-ASCII characters that `str.isdigit` accepts are not modelled, although the code treats them in two different ways. For Unicode decimal digits (category Nd, such as '٣'), `int()` gives their value, so `is_valid_card_number` can return True for a number that contains them (for example '٠0'), while the model (`NonDigitIsInvalid`) says such a string is invalid. For other characters that `isdigit` accepts, such as '²', `int()` raises `ValueError`, so the code raises an exception where the model returns false.
- CardNumbers.CalculateLuhnChecksum: requires an all-digit payload; the `ValueError` that `int()` raises on any other character is not modelled, as every caller passes digits.
- The field-level trimming of Django REST framework's `CharField` (which by default strips the reason before `validate` runs) is framework behaviour not in the modelled files: `validate` is modelled on the data it is handed, and the reason is stored as validated.
- HTTP responses, status codes and the mapping of exceptions to responses (cards/views.py:183-192) are left out; each request ends in an `Outcome` value. In the source an invalid status-update request raises inside the `try` and reaches the client through the generic error handler; the model reports it as `InvalidRequest`.
- Authentication (`IsAuthenticated`), the framework's default `has_permission` of `IsAdminOrManagerOrOwner`, parsers and schema decorators are framework plumbing and are left out.
- Persistence (`save()`, the queryset ordering by creation time) is not modelled; `GetQueryset` keeps the order of the cards it is given.
- Card-number assignment when a new card is saved: no code in the modelled files does it, so a new application keeps an empty card number.
- The validation of the creation request (`CreditCardApplicationSerializer`) and the generic retrieve/update of `CreditCardDetailView` are framework code over field declarations and are not modelled; the requested card type is an optional parameter.
- The credit limit, a decimal with two places, is an integer number of hundredths; it is only stored.
- users/views.py (registration, OTP, tokens, e-mail, role changes, password reset) is I/O and framework calls and is not part of this model.
