/**
 The card-application workflow of cards/views.py: creating an application, the status
 update that approves or rejects it, which applications a user can see, and who may delete.
 */
module CardViews {
  import opened Wrappers
  import opened UserModels
  import opened CardModels
  import opened StatusValidation
  import Permissions

  /** The primary key of a card application. */
  type CardId = nat

  /**
   The fields of a `CreditCard` row that the views read or write. The credit limit is kept as
   an integer number of hundredths (the model field has two decimal places).
   */
  datatype Application = Application(
    owner: UserId,
    cardNumber: string,
    cardType: string,
    creditLimit: int,
    status: Status,
    approvedBy: Option<UserId>,
    rejectionReason: Option<string>)

  /** What a request to an endpoint ends in (the HTTP responses are not modelled). */
  datatype Outcome =
    | Forbidden                         // the permission check or the delete guard refused
    | NotFound                          // no card with that primary key
    | InvalidRequest(error: ValidationError)
    | NotPending(current: Status)       // "Only pending applications can be updated"
    | Updated(status: Status)
    | Deleted

  // ---------------------------------------------------------------------------------------
  // Creating an application
  // ---------------------------------------------------------------------------------------

  /**
   The card `CreditCardListCreateView.post` builds: owned by the requester, of the requested
   type or VISA, with the requested limit, PENDING, and neither approver nor rejection reason.
   No card number is assigned here, so the field keeps its empty default.
   */
  function NewApplication(owner: UserId, requestedType: Option<string>, creditLimit: int): Application
  {
    Application(owner, "", requestedType.GetOr("VISA"), creditLimit, Pending, None, None)
  }

  /** Every new application is PENDING, of type VISA unless another was asked for. */
  lemma NewApplicationIsPending(owner: UserId, requestedType: Option<string>, creditLimit: int)
    ensures NewApplication(owner, requestedType, creditLimit).status == Pending
    ensures NewApplication(owner, requestedType, creditLimit).owner == owner
    ensures requestedType == None ==> NewApplication(owner, requestedType, creditLimit).cardType == "VISA"
    ensures requestedType.Some? ==> NewApplication(owner, requestedType, creditLimit).cardType == requestedType.value
    ensures NewApplication(owner, requestedType, creditLimit).approvedBy == None
    ensures NewApplication(owner, requestedType, creditLimit).rejectionReason == None
  {
  }

  // ---------------------------------------------------------------------------------------
  // The status update, as a function on the card's fields
  // ---------------------------------------------------------------------------------------

  /**
   `CreditCardStatusUpdateView.post` once the card is found: validate the request, refuse a
   card that is no longer PENDING, then set the status and the approver/reason fields.
   */
  function ApplyStatusUpdate(card: Application, approver: UserId, request: StatusRequest): (Application, Outcome)
  {
    match RunValidation(request)
    case Err(e) => (card, InvalidRequest(e))
    case Ok(data) =>
      if card.status != Pending then (card, NotPending(card.status))
      else
        var next := card.(status := data.status);
        var next :=
          if next.status == Approved then next.(approvedBy := Some(approver), rejectionReason := None)
          else if next.status == Rejected then next.(approvedBy := None, rejectionReason := data.rejectionReason)
          else next;
        (next, Updated(next.status))
  }

  /** A card that is not PENDING is left as it is, and the update is refused. */
  lemma OnlyPendingCardsChange(card: Application, approver: UserId, request: StatusRequest)
    requires card.status != Pending
    ensures ApplyStatusUpdate(card, approver, request).0 == card
    ensures RunValidation(request).Ok? ==> ApplyStatusUpdate(card, approver, request).1 == NotPending(card.status)
    ensures RunValidation(request).Err? ==>
      ApplyStatusUpdate(card, approver, request).1 == InvalidRequest(RunValidation(request).error)
  {
  }

  /** An update succeeds exactly when the request is valid and the card is PENDING. */
  lemma UpdateSucceedsExactly(card: Application, approver: UserId, request: StatusRequest)
    ensures ApplyStatusUpdate(card, approver, request).1.Updated?
        <==> AcceptableRequest(request) && card.status == Pending
  {
    ValidationAcceptsExactly(request);
  }

  /**
   After a successful update the card has the requested status, APPROVED or REJECTED; an
   approval records the approver and clears the reason, a rejection clears the approver and
   keeps the reason exactly as sent.
   */
  lemma UpdateSetsDecision(card: Application, approver: UserId, request: StatusRequest)
    requires ApplyStatusUpdate(card, approver, request).1.Updated?
    ensures var next := ApplyStatusUpdate(card, approver, request).0;
      && (request.status == Some("APPROVED") ==>
            next.status == Approved && next.approvedBy == Some(approver) && next.rejectionReason == None)
      && (request.status == Some("REJECTED") ==>
            next.status == Rejected && next.approvedBy == None && next.rejectionReason == request.rejectionReason)
      && (request.status == Some("APPROVED") || request.status == Some("REJECTED"))
      && ApplyStatusUpdate(card, approver, request).1 == Updated(next.status)
  {
    ValidationAcceptsExactly(request);
  }

  /** A status update changes only the status, the approver and the rejection reason. */
  lemma UpdateKeepsOtherFields(card: Application, approver: UserId, request: StatusRequest)
    ensures var next := ApplyStatusUpdate(card, approver, request).0;
      next.owner == card.owner && next.cardNumber == card.cardNumber && next.cardType == card.cardType
      && next.creditLimit == card.creditLimit
  {
  }

  /** APPROVED and REJECTED are final: every later update is refused and changes nothing. */
  lemma {:induction false} DecisionsAreFinal(
    card: Application, approver: UserId, request: StatusRequest,
    laterApprover: UserId, laterRequest: StatusRequest)
    requires ApplyStatusUpdate(card, approver, request).1.Updated?
    ensures var next := ApplyStatusUpdate(card, approver, request).0;
      && next.status in {Approved, Rejected}
      && ApplyStatusUpdate(next, laterApprover, laterRequest).0 == next
      && !ApplyStatusUpdate(next, laterApprover, laterRequest).1.Updated?
  {
    PendingIsNotATarget(request);
    var next := ApplyStatusUpdate(card, approver, request).0;
    OnlyPendingCardsChange(next, laterApprover, laterRequest);
  }

  /** A freshly created application can be decided by any valid request. */
  lemma NewApplicationCanBeDecided(
    owner: UserId, requestedType: Option<string>, creditLimit: int,
    approver: UserId, request: StatusRequest)
    requires AcceptableRequest(request)
    ensures ApplyStatusUpdate(NewApplication(owner, requestedType, creditLimit), approver, request).1.Updated?
  {
    UpdateSucceedsExactly(NewApplication(owner, requestedType, creditLimit), approver, request);
  }

  // ---------------------------------------------------------------------------------------
  // The card object, updated in place
  // ---------------------------------------------------------------------------------------

  /** A `CreditCard` instance; `UpdateStatus` assigns its fields as the view does. */
  class CreditCard {
    var owner: UserId
    var cardNumber: string
    var cardType: string
    var creditLimit: int
    var status: Status
    var approvedBy: Option<UserId>
    var rejectionReason: Option<string>

    /** The card's fields as a value. */
    function Snapshot(): Application
      reads this
    {
      Application(owner, cardNumber, cardType, creditLimit, status, approvedBy, rejectionReason)
    }

    /** `CreditCard(user=..., card_type=..., credit_limit=..., status='PENDING')`. */
    constructor (owner: UserId, requestedType: Option<string>, creditLimit: int)
      ensures Snapshot() == NewApplication(owner, requestedType, creditLimit)
    {
      this.owner := owner;
      cardNumber := "";
      cardType := requestedType.GetOr("VISA");
      this.creditLimit := creditLimit;
      status := Pending;
      approvedBy := None;
      rejectionReason := None;
    }

    /** The body of `CreditCardStatusUpdateView.post` on a card that was found. */
    method UpdateStatus(approver: UserId, request: StatusRequest) returns (outcome: Outcome)
      modifies this
      ensures (Snapshot(), outcome) == ApplyStatusUpdate(old(Snapshot()), approver, request)
    {
      var validated := RunValidation(request);
      if validated.Err? {
        return InvalidRequest(validated.error);
      }
      if status != Pending {
        return NotPending(status);
      }
      status := validated.value.status;
      if status == Approved {
        approvedBy := Some(approver);
        rejectionReason := None;
      } else if status == Rejected {
        approvedBy := None;
        rejectionReason := validated.value.rejectionReason;
      }
      outcome := Updated(status);
    }
  }

  /**
   The whole status endpoint: the `IsAdminOrManager` permission check, the lookup by primary
   key, then the update of that one card.
   */
  method PostStatusUpdate(cards: map<CardId, CreditCard>, pk: CardId, requester: Account, request: StatusRequest)
    returns (outcome: Outcome)
    modifies if pk in cards then {cards[pk]} else {}
    ensures !Permissions.IsAdminOrManager(requester) ==> outcome == Forbidden
    ensures Permissions.IsAdminOrManager(requester) && pk !in cards ==> outcome == NotFound
    ensures pk in cards ==>
      (cards[pk].Snapshot(), outcome) ==
        if Permissions.IsAdminOrManager(requester) then ApplyStatusUpdate(old(cards[pk].Snapshot()), requester.id, request)
        else (old(cards[pk].Snapshot()), Forbidden)
  {
    if !Permissions.IsAdminOrManager(requester) {
      return Forbidden;
    }
    if pk !in cards {
      return NotFound;
    }
    outcome := cards[pk].UpdateStatus(requester.id, request);
  }

  // ---------------------------------------------------------------------------------------
  // Visibility and deletion
  // ---------------------------------------------------------------------------------------

  /** `CreditCard.objects.filter(user=user)`, keeping the order of `cards`. */
  function OwnedBy(cards: seq<Application>, id: UserId): seq<Application>
  {
    if |cards| == 0 then []
    else (if cards[0].owner == id then [cards[0]] else []) + OwnedBy(cards[1..], id)
  }

  /** `get_queryset`: ADMIN and MANAGER see every card, anyone else only their own. */
  function GetQueryset(cards: seq<Application>, requester: Account): seq<Application>
  {
    if requester.role in {Admin, Manager} then cards else OwnedBy(cards, requester.id)
  }

  /** The filter keeps exactly the cards with the given owner. */
  lemma {:induction false} OwnedByMembers(cards: seq<Application>, id: UserId, card: Application)
    ensures card in OwnedBy(cards, id) <==> card in cards && card.owner == id
    decreases |cards|
  {
    if |cards| > 0 {
      OwnedByMembers(cards[1..], id, card);
      assert cards == [cards[0]] + cards[1..];
    }
  }

  /** ADMIN and MANAGER see everything. */
  lemma StaffSeeAllCards(cards: seq<Application>, requester: Account)
    requires Permissions.IsAdminOrManager(requester)
    ensures GetQueryset(cards, requester) == cards
  {
  }

  /** A card is listed exactly when the object permission would let the requester at it. */
  lemma VisibleExactlyWithObjectPermission(cards: seq<Application>, requester: Account, card: Application)
    ensures card in GetQueryset(cards, requester)
        <==> card in cards && Permissions.IsAdminOrManagerOrOwner(requester, card.owner)
  {
    OwnedByMembers(cards, requester.id, card);
  }

  /**
   `CreditCardDetailView.delete`: only ADMIN gets past the guard; the card is then looked up
   (ADMIN sees every card) and removed.
   */
  function DeleteApplication(cards: map<CardId, Application>, pk: CardId, requester: Account)
    : (map<CardId, Application>, Outcome)
  {
    if requester.role != Admin then (cards, Forbidden)
    else if pk !in cards then (cards, NotFound)
    else (cards - {pk}, Deleted)
  }

  /** A card is deleted only by ADMIN, and then exactly that card is removed. */
  lemma OnlyAdminDeletes(cards: map<CardId, Application>, pk: CardId, requester: Account)
    ensures DeleteApplication(cards, pk, requester).1 == Deleted
        <==> Permissions.IsAdmin(requester) && pk in cards
    ensures DeleteApplication(cards, pk, requester).1 == Deleted ==>
      DeleteApplication(cards, pk, requester).0.Keys == cards.Keys - {pk}
      && forall k :: k in DeleteApplication(cards, pk, requester).0 ==> DeleteApplication(cards, pk, requester).0[k] == cards[k]
    ensures DeleteApplication(cards, pk, requester).1 != Deleted ==> DeleteApplication(cards, pk, requester).0 == cards
    ensures !Permissions.IsAdmin(requester) ==> DeleteApplication(cards, pk, requester).1 == Forbidden
  {
  }
}
