/** The user entity as far as the card subsystem sees it: an identity and a role (users/models.py). */
module UserModels {

  /** The four roles of `CustomUser.ROLES`. */
  datatype Role = Admin | Manager | Employee | User

  /** A user is identified by its primary key; Django compares model instances by it. */
  type UserId = nat

  datatype Account = Account(id: UserId, role: Role)
}

/** The lifecycle status of a credit-card application (`CreditCard.STATUS_CHOICES`, cards/models.py). */
module CardModels {

  datatype Status = Pending | Approved | Rejected
}
