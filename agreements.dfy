/**
 * The read-and-accept workflow of the partner agreements page.
 *
 * The page keeps one selected agreement and two flag maps keyed by agreement
 * id: whether the reader has scrolled to the bottom of the agreement, and
 * whether the agreement has been accepted. Three events change that state:
 * clicking an agreement in the list, scrolling the content viewer, and
 * clicking the accept button, which is disabled unless the selected agreement
 * has been read and is not yet accepted.
 *
 * A key missing from a flag map reads as false, as an `undefined` entry of
 * the page's keyed objects does.
 */
module AgreementWorkflow {

  type AgreementId = string

  /** Remaining scroll distance, in pixels, under which the viewer is at the bottom. */
  const BottomTolerance: real := 1.0

  function Abs(x: real): (r: real)
    ensures r >= 0.0 && (r == x || r == -x)
  {
    if x < 0.0 then -x else x
  }

  /** The content viewer shows its last line: what is left to scroll is within the tolerance. */
  function IsAtBottom(scrollHeight: real, clientHeight: real, scrollTop: real): (atBottom: bool)
    ensures atBottom <==>
      scrollHeight - clientHeight - BottomTolerance < scrollTop < scrollHeight - clientHeight + BottomTolerance
  {
    Abs(scrollHeight - clientHeight - scrollTop) < BottomTolerance
  }

  // ---------------------------------------------------------------------------
  // Keyed flags
  // ---------------------------------------------------------------------------

  /** The flag stored for `id`; a missing entry reads as false. */
  function Flag(flags: map<AgreementId, bool>, id: AgreementId): bool
  {
    id in flags && flags[id]
  }

  /** Every flag set in `before` is still set in `after`. */
  ghost predicate OnlyGrows(before: map<AgreementId, bool>, after: map<AgreementId, bool>)
  {
    forall id :: Flag(before, id) ==> Flag(after, id)
  }

  /** The update `{...prev, [id]: true}`. */
  function SetFlag(flags: map<AgreementId, bool>, id: AgreementId): (r: map<AgreementId, bool>)
    ensures Flag(r, id)
    ensures forall other :: other != id ==> Flag(r, other) == Flag(flags, other)
  {
    flags[id := true]
  }

  // ---------------------------------------------------------------------------
  // What the page derives from the flags of one agreement
  // ---------------------------------------------------------------------------

  datatype Status = Pending | Accepted

  datatype ButtonLabel = AgreementAccepted | AcceptAgreement | PleaseReadEntireAgreement

  /** `canAccept`: read to the bottom and not yet accepted. */
  function ReadyToAccept(read: bool, accepted: bool): bool
  {
    read && !accepted
  }

  /** The badge shown next to an agreement in the list. */
  function StatusOf(accepted: bool): (status: Status)
    ensures status == Accepted <==> accepted
  {
    if accepted then Accepted else Pending
  }

  /**
   * The accept button's label. The accept label is shown exactly when the
   * button is enabled, and the three labels split the flag combinations
   * between them.
   */
  function Label(read: bool, accepted: bool): (caption: ButtonLabel)
    ensures caption == AgreementAccepted <==> accepted
    ensures caption == AcceptAgreement <==> ReadyToAccept(read, accepted)
    ensures caption == PleaseReadEntireAgreement <==> !read && !accepted
  {
    if accepted then AgreementAccepted
    else if ReadyToAccept(read, accepted) then AcceptAgreement
    else PleaseReadEntireAgreement
  }

  // ---------------------------------------------------------------------------
  // The page state and its events
  // ---------------------------------------------------------------------------

  datatype PageState = PageState(
    selected: AgreementId,
    read: map<AgreementId, bool>,
    accepted: map<AgreementId, bool>)

  /** The first agreement is selected; nothing has been read or accepted. */
  function Initial(agreements: seq<AgreementId>): PageState
    requires |agreements| > 0
  {
    PageState(agreements[0], map[], map[])
  }

  function CanAcceptIn(s: PageState): bool
  {
    ReadyToAccept(Flag(s.read, s.selected), Flag(s.accepted, s.selected))
  }

  datatype Event =
    | Select(id: AgreementId)
    | Scroll(scrollHeight: real, clientHeight: real, scrollTop: real)
    | Accept

  /**
   * The effect of one event as the page's handlers compute it. The accept
   * handler itself does not look at `canAccept`; see Enabled.
   */
  function Step(s: PageState, e: Event): (t: PageState)
    ensures OnlyGrows(s.read, t.read) && OnlyGrows(s.accepted, t.accepted)
  {
    match e
    case Select(id) => s.(selected := id)
    case Scroll(scrollHeight, clientHeight, scrollTop) =>
      if IsAtBottom(scrollHeight, clientHeight, scrollTop) then s.(read := SetFlag(s.read, s.selected)) else s
    case Accept => s.(accepted := SetFlag(s.accepted, s.selected))
  }

  /**
   * Whether the page can produce the event: only listed agreements can be
   * clicked, and the accept button is disabled unless `canAccept` holds.
   */
  predicate Enabled(agreements: seq<AgreementId>, s: PageState, e: Event)
  {
    match e
    case Select(id) => id in agreements
    case Scroll(_, _, _) => true
    case Accept => CanAcceptIn(s)
  }

  /** What holds of every state the page can reach. */
  ghost predicate Inv(agreements: seq<AgreementId>, s: PageState)
  {
    s.selected in agreements &&
    forall id :: Flag(s.accepted, id) ==> Flag(s.read, id)
  }

  /** The state after a sequence of events. */
  function Run(s: PageState, events: seq<Event>): PageState
    decreases |events|
  {
    if events == [] then s else Run(Step(s, events[0]), events[1..])
  }

  /** Every event of the sequence is enabled in the state it meets. */
  predicate EnabledRun(agreements: seq<AgreementId>, s: PageState, events: seq<Event>)
    decreases |events|
  {
    events == [] ||
    (Enabled(agreements, s, events[0]) && EnabledRun(agreements, Step(s, events[0]), events[1..]))
  }

  // ---------------------------------------------------------------------------
  // Properties of single events
  // ---------------------------------------------------------------------------

  lemma InitialState(agreements: seq<AgreementId>)
    requires |agreements| > 0
    ensures Inv(agreements, Initial(agreements))
    ensures Initial(agreements).selected == agreements[0]
    ensures !CanAcceptIn(Initial(agreements))
    ensures forall id :: StatusOf(Flag(Initial(agreements).accepted, id)) == Pending
    ensures Label(Flag(Initial(agreements).read, agreements[0]), Flag(Initial(agreements).accepted, agreements[0]))
            == PleaseReadEntireAgreement
  {
  }

  /** Selecting changes the selection and nothing else. */
  lemma SelectKeepsFlags(s: PageState, id: AgreementId)
    ensures Step(s, Select(id)).selected == id
    ensures Step(s, Select(id)).read == s.read
    ensures Step(s, Select(id)).accepted == s.accepted
  {
  }

  /**
   * A scroll at the bottom sets the read flag of the selected agreement and of
   * no other; a scroll elsewhere changes nothing, and no scroll clears a flag.
   */
  lemma ScrollMarksSelectedOnly(s: PageState, scrollHeight: real, clientHeight: real, scrollTop: real)
    ensures var t := Step(s, Scroll(scrollHeight, clientHeight, scrollTop));
      t.selected == s.selected && t.accepted == s.accepted &&
      Flag(t.read, s.selected) == (Flag(s.read, s.selected) || IsAtBottom(scrollHeight, clientHeight, scrollTop)) &&
      (forall id :: id != s.selected ==> Flag(t.read, id) == Flag(s.read, id)) &&
      (!IsAtBottom(scrollHeight, clientHeight, scrollTop) ==> t == s)
  {
  }

  /**
   * Accepting sets the accepted flag of the selected agreement and of no
   * other, leaves the read flags and the selection alone, and a second accept
   * changes nothing.
   */
  lemma AcceptMarksSelectedOnly(s: PageState)
    ensures var t := Step(s, Accept);
      t.selected == s.selected && t.read == s.read &&
      Flag(t.accepted, s.selected) && StatusOf(Flag(t.accepted, s.selected)) == Accepted &&
      !CanAcceptIn(t) &&
      (forall id :: id != s.selected ==> Flag(t.accepted, id) == Flag(s.accepted, id)) &&
      Step(t, Accept) == t
  {
  }

  /** An enabled event keeps the invariant: accept fires only on a read agreement. */
  lemma StepPreservesInv(agreements: seq<AgreementId>, s: PageState, e: Event)
    requires Inv(agreements, s) && Enabled(agreements, s, e)
    ensures Inv(agreements, Step(s, e))
  {
  }

  // ---------------------------------------------------------------------------
  // Properties of runs
  // ---------------------------------------------------------------------------

  /**
   * Read and accepted flags never revert, whatever events arrive and whatever
   * scroll positions they report; enabled or not.
   */
  lemma {:induction false} RunOnlyGrows(s: PageState, events: seq<Event>)
    ensures OnlyGrows(s.read, Run(s, events).read)
    ensures OnlyGrows(s.accepted, Run(s, events).accepted)
    decreases |events|
  {
    if events != [] {
      var t := Step(s, events[0]);
      RunOnlyGrows(t, events[1..]);
    }
  }

  /** A run of enabled events keeps the invariant. */
  lemma {:induction false} RunPreservesInv(agreements: seq<AgreementId>, s: PageState, events: seq<Event>)
    requires Inv(agreements, s) && EnabledRun(agreements, s, events)
    ensures Inv(agreements, Run(s, events))
    decreases |events|
  {
    if events != [] {
      StepPreservesInv(agreements, s, events[0]);
      RunPreservesInv(agreements, Step(s, events[0]), events[1..]);
    }
  }

  /**
   * In every state the page can reach, the selected agreement is a listed one
   * and an accepted agreement has been read. The last conjunct, that
   * `canAccept` and accepted never hold together, holds of every state by the
   * definition of `canAccept`; it is repeated here for the button's sake.
   */
  lemma ReachableStates(agreements: seq<AgreementId>, events: seq<Event>)
    requires |agreements| > 0 && EnabledRun(agreements, Initial(agreements), events)
    ensures var s := Run(Initial(agreements), events);
      s.selected in agreements &&
      (forall id :: Flag(s.accepted, id) ==> Flag(s.read, id)) &&
      !(CanAcceptIn(s) && Flag(s.accepted, s.selected))
  {
    InitialState(agreements);
    RunPreservesInv(agreements, Initial(agreements), events);
  }

  /** Once an agreement's badge reads Accepted, no later event turns it back to Pending. */
  lemma BadgeNeverReverts(s: PageState, events: seq<Event>, id: AgreementId)
    ensures StatusOf(Flag(s.accepted, id)) == Accepted ==>
      StatusOf(Flag(Run(s, events).accepted, id)) == Accepted
  {
    RunOnlyGrows(s, events);
  }

  // ---------------------------------------------------------------------------
  // The page component
  // ---------------------------------------------------------------------------

  class AgreementsPage {
    /** The ids of the listed agreements, in list order. */
    const agreements: seq<AgreementId>
    var selectedAgreement: AgreementId
    var hasScrolledToBottom: map<AgreementId, bool>
    var acceptedAgreements: map<AgreementId, bool>

    function State(): PageState
      reads this
    {
      PageState(selectedAgreement, hasScrolledToBottom, acceptedAgreements)
    }

    ghost predicate Valid()
      reads this
    {
      Inv(agreements, State())
    }

    constructor (agreements: seq<AgreementId>)
      requires |agreements| > 0
      ensures this.agreements == agreements
      ensures State() == Initial(agreements)
      ensures Valid() && !CanAccept()
    {
      this.agreements := agreements;
      selectedAgreement := agreements[0];
      hasScrolledToBottom := map[];
      acceptedAgreements := map[];
    }

    /** `canAccept` of the selected agreement. */
    function CanAccept(): bool
      reads this
    {
      CanAcceptIn(State())
    }

    /** The list badge of agreement `id`. */
    function StatusOfAgreement(id: AgreementId): Status
      reads this
    {
      StatusOf(Flag(acceptedAgreements, id))
    }

    /** The label of the accept button for the selected agreement. */
    function AcceptButtonLabel(): ButtonLabel
      reads this
    {
      Label(Flag(hasScrolledToBottom, selectedAgreement), Flag(acceptedAgreements, selectedAgreement))
    }

    /** Click on an agreement of the list. */
    method SelectAgreement(id: AgreementId)
      requires Valid() && id in agreements
      modifies this`selectedAgreement
      ensures Valid()
      ensures State() == Step(old(State()), Select(id))
    {
      selectedAgreement := id;
    }

    /** Scroll event of the content viewer, with the viewer's three measurements. */
    method HandleScroll(scrollHeight: real, clientHeight: real, scrollTop: real)
      requires Valid()
      modifies this`hasScrolledToBottom
      ensures Valid()
      ensures State() == Step(old(State()), Scroll(scrollHeight, clientHeight, scrollTop))
    {
      var isAtBottom := Abs(scrollHeight - clientHeight - scrollTop) < BottomTolerance;
      if isAtBottom {
        hasScrolledToBottom := hasScrolledToBottom[selectedAgreement := true];
      }
    }

    /** Click on the accept button, which is enabled only when `canAccept` holds. */
    method HandleAcceptAgreement()
      requires Valid() && CanAccept()
      modifies this`acceptedAgreements
      ensures Valid()
      ensures State() == Step(old(State()), Accept)
    {
      acceptedAgreements := acceptedAgreements[selectedAgreement := true];
    }
  }

  /** Read, accept and switch agreements; what callers can prove from the contracts alone. */
  method ReadAcceptAndSwitch()
  {
    var page := new AgreementsPage(["terms-of-service", "privacy-policy", "data-processing", "service-agreement"]);
    assert page.AcceptButtonLabel() == PleaseReadEntireAgreement;
    page.HandleScroll(600.0, 100.0, 250.0);
    assert !page.CanAccept();
    page.HandleScroll(600.0, 100.0, 500.0);
    assert page.CanAccept() && page.AcceptButtonLabel() == AcceptAgreement;
    page.SelectAgreement("privacy-policy");
    assert !page.CanAccept() && page.StatusOfAgreement("privacy-policy") == Pending;
    page.SelectAgreement("terms-of-service");
    assert page.CanAccept();
    page.HandleAcceptAgreement();
    assert page.StatusOfAgreement("terms-of-service") == Accepted;
    assert !page.CanAccept() && page.AcceptButtonLabel() == AgreementAccepted;
  }
}
