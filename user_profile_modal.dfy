/** The profile dialog of another user, with its swap request form. The
    dialog is the only place where a request to oneself is prevented: the
    server's create route only checks that the receiver exists. */
module UserProfileModal {
  import opened Collections
  import opened Schemas

  /** A user as the dialog sees them: the offered skills are names. */
  datatype Viewer = Viewer(id: Id, name: string, skillsOffered: seq<string>)

  datatype RequestData = RequestData(skillOffered: string, skillWanted: string, message: string)

  const EmptyRequest := RequestData("", "", "")

  /** A call the dialog makes: the swap API, or the notification hook. */
  datatype ModalCall =
    | CreateSwap(fromUserId: Id, toUserId: Id, skillOffered: string, skillWanted: string, message: string, status: SwapStatus)
    | NotifyUser(userId: Id, ntype: NotificationType, title: string, message: string, isRead: bool)

  /** The "Send Swap Request" button: a signed-in viewer who is not the
      user shown, with the form still closed. */
  predicate SendControlShown(me: Option<Viewer>, user: Viewer, showRequestForm: bool) {
    me.Some? && me.value.id != user.id && !showRequestForm
  }

  /** `!currentUser || !skillOffered || !skillWanted`: the empty string is
      the only falsy text. */
  predicate SendBlocked(me: Option<Viewer>, d: RequestData) {
    me.None? || d.skillOffered == "" || d.skillWanted == ""
  }

  /** The two calls a send makes. */
  function SendCalls(me: Viewer, user: Viewer, d: RequestData): (cs: seq<ModalCall>)
    ensures |cs| == 2 && cs[0].CreateSwap? && cs[1].NotifyUser?
    ensures cs[0].fromUserId == me.id && cs[0].toUserId == user.id && cs[0].status == Pending
    ensures cs[1].userId == user.id && cs[1].ntype == NoteSwapRequest && !cs[1].isRead
  {
    [CreateSwap(me.id, user.id, d.skillOffered, d.skillWanted, d.message, Pending),
     NotifyUser(user.id, NoteSwapRequest, "New Swap Request",
       me.name + " wants to swap " + d.skillOffered + " for " + d.skillWanted, false)]
  }

  /** A request the dialog may create: from the viewer, to someone else,
      pending, offering one of the viewer's skills for one of the user's. */
  predicate Proper(c: ModalCall, me: Viewer, user: Viewer) {
    c.CreateSwap? ==>
      c.fromUserId == me.id && c.toUserId == user.id && c.fromUserId != c.toUserId && c.status == Pending &&
      c.skillOffered in me.skillsOffered && c.skillWanted in user.skillsOffered
  }

  class RequestModal {
    const me: Option<Viewer>
    const user: Viewer
    var showRequestForm: bool
    var requestData: RequestData
    var calls: seq<ModalCall>
    var isOpen: bool

    /** The form only opens through the send button, and the selects only
        offer the viewer's skills and the user's skills. */
    ghost predicate Valid()
      reads this
    {
      (showRequestForm ==> me.Some? && me.value.id != user.id) &&
      (requestData.skillOffered != "" ==> me.Some? && requestData.skillOffered in me.value.skillsOffered) &&
      (requestData.skillWanted != "" ==> requestData.skillWanted in user.skillsOffered) &&
      forall i :: 0 <= i < |calls| ==> me.Some? && Proper(calls[i], me.value, user)
    }

    constructor(me: Option<Viewer>, user: Viewer)
      ensures Valid()
      ensures this.me == me && this.user == user && !showRequestForm && requestData == EmptyRequest
      ensures calls == [] && isOpen
    {
      this.me := me;
      this.user := user;
      showRequestForm := false;
      requestData := EmptyRequest;
      calls := [];
      isOpen := true;
    }

    /** The send button opens the form; it exists only when shown. */
    method OpenRequestForm()
      requires Valid() && SendControlShown(me, user, showRequestForm)
      modifies this
      ensures Valid() && showRequestForm
      ensures requestData == old(requestData) && calls == old(calls) && isOpen == old(isOpen)
    {
      showRequestForm := true;
    }

    /** The form's Cancel button: the choices stay as they were. */
    method CancelRequestForm()
      requires Valid()
      modifies this
      ensures Valid() && !showRequestForm
      ensures requestData == old(requestData) && calls == old(calls) && isOpen == old(isOpen)
    {
      showRequestForm := false;
    }

    /** The "I can offer" select: the placeholder or one of the viewer's skills. */
    method ChooseOffered(skill: string)
      requires Valid() && showRequestForm
      requires skill == "" || (me.Some? && skill in me.value.skillsOffered)
      modifies this
      ensures Valid() && requestData == old(requestData).(skillOffered := skill)
      ensures showRequestForm && calls == old(calls) && isOpen == old(isOpen)
    {
      requestData := requestData.(skillOffered := skill);
    }

    /** The "I want to learn" select: the placeholder or one of the user's skills. */
    method ChooseWanted(skill: string)
      requires Valid() && showRequestForm
      requires skill == "" || skill in user.skillsOffered
      modifies this
      ensures Valid() && requestData == old(requestData).(skillWanted := skill)
      ensures showRequestForm && calls == old(calls) && isOpen == old(isOpen)
    {
      requestData := requestData.(skillWanted := skill);
    }

    method EditMessage(text: string)
      requires Valid() && showRequestForm
      modifies this
      ensures Valid() && requestData == old(requestData).(message := text)
      ensures showRequestForm && calls == old(calls) && isOpen == old(isOpen)
    {
      requestData := requestData.(message := text);
    }

    /** `handleSendRequest`, reached from the form's Send button. */
    method HandleSendRequest()
      requires Valid() && showRequestForm
      modifies this
      ensures Valid()
      ensures SendBlocked(me, old(requestData)) ==>
        calls == old(calls) && requestData == old(requestData) && showRequestForm && isOpen == old(isOpen)
      ensures !SendBlocked(me, old(requestData)) ==>
        calls == old(calls) + SendCalls(me.value, user, old(requestData)) &&
        requestData == EmptyRequest && !showRequestForm && !isOpen
    {
      if me.None? || requestData.skillOffered == "" || requestData.skillWanted == "" {
        return;
      }
      var sent := SendCalls(me.value, user, requestData);
      calls := calls + sent;
      showRequestForm := false;
      requestData := EmptyRequest;
      isOpen := false;
    }
  }
}
