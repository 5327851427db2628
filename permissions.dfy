/** The role and ownership checks of `restaurant/views.py`.  Each is a pure
    test of the requesting user against the owner of a booking; the views
    that own them raise `PermissionDenied` when the test fails, before they
    write anything. */
module Permissions {

  type UserId = nat

  /** The fields of `users.models.User` the checks read.  Two users are the
      same user when their primary keys are equal, as Django compares model
      instances. */
  datatype User = User(id: UserId, email: string, isModerator: bool, isStaff: bool, isSuperuser: bool)

  /** `request.user`: the question views also serve anonymous visitors. */
  datatype Visitor = Anonymous | Member(user: User)

  /** `user == self.object.user`: the test of `BookingUpdateView.get_form_class`
      and `BookingDeleteView.form_valid`. */
  predicate IsOwner(actor: User, owner: UserId)
  {
    actor.id == owner
  }

  /** `user == self.object.user or user.is_moderator`: the test of
      `BookingListView.form_valid` and `BookingDetailView.form_valid`. */
  predicate OwnerOrModerator(actor: User, owner: UserId)
  {
    actor.id == owner || actor.isModerator
  }

  datatype BookingAction = View | Update | Delete

  /** The booking rules gathered into one permission function of (actor,
      resource owner, action). */
  function MayAct(actor: User, owner: UserId, action: BookingAction): (allowed: bool)
    ensures action == View ==> (allowed <==> OwnerOrModerator(actor, owner))
    ensures action != View ==> (allowed <==> IsOwner(actor, owner))
  {
    match action
    case View => OwnerOrModerator(actor, owner)
    case Update => IsOwner(actor, owner)
    case Delete => IsOwner(actor, owner)
  }

  /** The owner may do everything; a moderator who is not the owner may look
      but neither change nor delete; anybody else may do nothing. */
  lemma {:induction false} BookingRoles(actor: User, owner: UserId)
    ensures actor.id == owner ==> forall a: BookingAction :: MayAct(actor, owner, a)
    ensures actor.id != owner && actor.isModerator ==>
      MayAct(actor, owner, View) && !MayAct(actor, owner, Update) && !MayAct(actor, owner, Delete)
    ensures actor.id != owner && !actor.isModerator ==> forall a: BookingAction :: !MayAct(actor, owner, a)
  {
    if actor.id == owner {
      forall a: BookingAction ensures MayAct(actor, owner, a) {
        match a
        case View =>
        case Update =>
        case Delete =>
      }
    }
    if actor.id != owner && !actor.isModerator {
      forall a: BookingAction ensures !MayAct(actor, owner, a) {
        match a
        case View =>
        case Update =>
        case Delete =>
      }
    }
  }

  // ---------------------------------------------------------------------
  // QuestionCreateView

  datatype QuestionForm = QuestionsForm | LimitedQuestionsForm

  datatype QuestionRedirect = QuestionList | QuestionsSuccess(message: string)

  /** `user.is_superuser or user.is_staff`; an anonymous visitor has neither
      flag. */
  predicate IsPrivileged(v: Visitor)
  {
    v.Member? && (v.user.isSuperuser || v.user.isStaff)
  }

  /** `QuestionCreateView.get_form_class`. */
  function QuestionFormFor(v: Visitor): QuestionForm
  {
    if IsPrivileged(v) then QuestionsForm else LimitedQuestionsForm
  }

  /** `QuestionCreateView.get_success_url`. */
  function QuestionSuccessUrl(v: Visitor): QuestionRedirect
  {
    if IsPrivileged(v) then QuestionList else QuestionsSuccess("question_premoderated")
  }

  /** The two role switches agree: whoever gets the full form lands on the
      live list, everyone else gets the limited form and the "pending
      moderation" page; moderators of bookings are not privileged here. */
  lemma QuestionRoleSwitch(v: Visitor)
    ensures QuestionFormFor(v) == QuestionsForm <==> QuestionSuccessUrl(v) == QuestionList
    ensures QuestionFormFor(v) == QuestionsForm <==> v.Member? && (v.user.isStaff || v.user.isSuperuser)
    ensures QuestionSuccessUrl(v) != QuestionList ==> QuestionSuccessUrl(v) == QuestionsSuccess("question_premoderated")
  {
  }
}
