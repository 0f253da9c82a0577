# Partner dashboard: agreement workflow and user-list pagination

This project models the two pieces of logic in the partner admin dashboard that
carry state and have rules worth proving.

- **The agreement read-and-accept workflow** (`agreements.dfy`, module
  `AgreementWorkflow`). The agreements page lists the agreements a partner must
  accept. Its state is one selected agreement and two flag maps keyed by
  agreement id: `hasScrolledToBottom` and `acceptedAgreements`. Three events
  change it:
  - a click on an agreement of the list selects it;
  - a scroll of the content viewer marks the selected agreement as read once
    the viewer is at its bottom;
  - a click on the accept button marks the selected agreement as accepted.

  The button is enabled only when `canAccept` holds, meaning the agreement is
  read and not yet accepted. The class `AgreementsPage` holds the three state
  fields, and its handlers are methods. Each method's postcondition ties the
  new state to the pure transition function `Step` applied to the old state.
  The invariants are proved about `Step` and about runs of events (`Run`).
  A key missing from a flag map reads as false, as an `undefined` entry does in
  the page.
- **The user-list pagination** (`pagination.dfy`, module `UserPagination`).
  The list shows eight users per page, and the number of pages is the number
  of users divided by eight, rounded up. `currentUsers` slices the list with
  `Array.prototype.slice` semantics, which the model spells out, including
  negative bounds and clamping. Previous and Next clamp the current page. The
  row of page buttons is built by pushes inside loops. The class `UsersPage`
  holds `currentPage`, and its methods are the three buttons. The method
  `RenderPagination` builds the row with the same loops, and it is proved equal
  to the declarative layout `PagerLayout`.

The agreement ids and the user list are parameters. In the source they are the
four agreements `terms-of-service`, `privacy-policy`, `data-processing` and
`service-agreement`, and a list of twenty generated users. The scroll
measurements `scrollHeight`, `clientHeight` and `scrollTop` are `real` inputs
of the scroll event.

`handleAcceptAgreement` (src/components/PartnerAgreementsPage.tsx:265-270) has
no guard of its own. Only the button's `disabled={!canAccept}` (line 390) stops
an early accept. So `Step(s, Accept)` sets the flag unconditionally, and the
gate is the event's enabling condition: `Enabled`, and the requires clause of
`AgreementsPage.HandleAcceptAgreement`.

## Model

| member | source | states |
|---|---|---|
| `AgreementWorkflow.IsAtBottom` | src/components/PartnerAgreementsPage.tsx:253-255 | the viewer is at the bottom exactly when `scrollTop` lies strictly within one pixel of `scrollHeight - clientHeight` |
| `AgreementWorkflow.SetFlag` | src/components/PartnerAgreementsPage.tsx:258-261 | the spread update `{...prev, [id]: true}` sets the flag of `id` and leaves every other key's flag as it was |
| `AgreementWorkflow.BadgeNeverReverts` | src/components/PartnerAgreementsPage.tsx:356-366 | once an agreement's list badge reads Accepted, it reads Accepted after any further sequence of events |
| `AgreementWorkflow.Label` | src/components/PartnerAgreementsPage.tsx:399-403 | the accept button shows 'Agreement Accepted' iff accepted, 'Accept Agreement' iff `canAccept` holds (exactly when the button is enabled), and 'Please read the entire agreement' iff the agreement is neither read nor accepted |
| `AgreementWorkflow.Step` | src/components/PartnerAgreementsPage.tsx:251-270 | no event clears a read flag or an accepted flag |
| `AgreementWorkflow.InitialState` | src/components/PartnerAgreementsPage.tsx:243-245 | initially the first agreement is selected, `canAccept` is false, every agreement shows Pending, and the button asks the reader to read the agreement |
| `AgreementWorkflow.SelectKeepsFlags` | src/components/PartnerAgreementsPage.tsx:341 | selecting an agreement changes the selection and leaves both flag maps unchanged |
| `AgreementWorkflow.ScrollMarksSelectedOnly` | src/components/PartnerAgreementsPage.tsx:251-263 | a scroll at the bottom sets the read flag of the selected agreement only; a scroll elsewhere leaves the whole state unchanged; selection and accepted flags never change |
| `AgreementWorkflow.AcceptMarksSelectedOnly` | src/components/PartnerAgreementsPage.tsx:265-270 | accept sets the selected agreement's accepted flag and no other, keeps the read flags and the selection, makes the badge Accepted and `canAccept` false, and a second accept changes nothing |
| `AgreementWorkflow.StepPreservesInv` | src/components/PartnerAgreementsPage.tsx:388-390 | an enabled event keeps the selection on a listed agreement and keeps accepted ⇒ read, because accept is enabled only when `canAccept` holds |
| `AgreementWorkflow.RunOnlyGrows` | src/components/PartnerAgreementsPage.tsx:244-245 | over any sequence of events, enabled or not and whatever scroll positions they report, no read flag and no accepted flag reverts to false |
| `AgreementWorkflow.RunPreservesInv` | src/components/PartnerAgreementsPage.tsx:265-272 | a run of enabled events keeps the invariant |
| `AgreementWorkflow.ReachableStates` | src/components/PartnerAgreementsPage.tsx:243-272 | in every state reachable from the initial one, the selection is a listed agreement and every accepted agreement is read (that `canAccept` and accepted never hold together is true of every state by definition) |
| `AgreementWorkflow.AgreementsPage.constructor` | src/components/PartnerAgreementsPage.tsx:243-245 | the page starts in the initial state, and `canAccept` is false |
| `AgreementWorkflow.AgreementsPage.SelectAgreement` | src/components/PartnerAgreementsPage.tsx:341 | the click handler performs `Step` for a selection and keeps the invariant |
| `AgreementWorkflow.AgreementsPage.HandleScroll` | src/components/PartnerAgreementsPage.tsx:251-263 | the scroll handler performs `Step` for a scroll with the given measurements and keeps the invariant |
| `AgreementWorkflow.AgreementsPage.HandleAcceptAgreement` | src/components/PartnerAgreementsPage.tsx:265-270 | the accept handler, reachable only when `canAccept` holds, performs `Step` for an accept and keeps the invariant |
| `UserPagination.TotalPages` | src/components/PartnerUsersPage.tsx:124 | `totalPages` is the least number of eight-user pages that holds all users, and it is 0 exactly when there are no users |
| `UserPagination.ClampIndex` | src/components/PartnerUsersPage.tsx:123 | a slice bound is clamped into `[0, length]`, and a non-negative bound is its minimum with the length |
| `UserPagination.Slice` | src/components/PartnerUsersPage.tsx:123 | for `0 <= start <= end`, `slice` yields the elements from `min(start, n)` up to `min(end, n)` |
| `UserPagination.PageContents` | src/components/PartnerUsersPage.tsx:121-123 | page `p >= 1` shows `users[(p-1)*8 .. min(p*8, n)]`: at most eight users, each at its list position, in list order |
| `UserPagination.PagesInRangeAreNonEmpty` | src/components/PartnerUsersPage.tsx:121-124 | every page from 1 to `totalPages` is non-empty, and every page before the last holds exactly eight users |
| `UserPagination.PagesThroughIsPrefix` | src/components/PartnerUsersPage.tsx:121-123 | pages 1 to `k`, concatenated, are the first `min(8k, n)` users |
| `UserPagination.AllPagesCoverUsers` | src/components/PartnerUsersPage.tsx:121-124 | pages 1 to `totalPages`, concatenated, are exactly the user list |
| `UserPagination.NavigationStaysInRange` | src/components/PartnerUsersPage.tsx:317-326 | from a page in `[1, totalPages]`, Previous and Next stay in that range and move by at most one; each stands still exactly where its button is disabled |
| `UserPagination.NextOnEmptyList` | src/components/PartnerUsersPage.tsx:325-326 | with no users, Next from page 1 leads to page 0 |
| `UserPagination.ButtonsAt` | src/components/PartnerUsersPage.tsx:215-216 | a run of page buttons from `lo` to `hi` has `hi - lo + 1` entries, and entry `k` is the button for page `lo + k` |
| `UserPagination.RenderPagination` | src/components/PartnerUsersPage.tsx:212-242 | the push loops build exactly the row `PagerLayout` describes |
| `UserPagination.SmallPagerListsEveryPage` | src/components/PartnerUsersPage.tsx:214-217 | with at most five pages, the row is the buttons 1 to `totalPages` in ascending order, with no ellipsis |
| `UserPagination.LargePagerShapes` | src/components/PartnerUsersPage.tsx:219-239 | with more than five pages the row is `[1,2,3,4,…,T]` when the current page is at most 3; `[1,…,T-3,T-2,T-1,T]` when it is at least `T-2`; and `[1,…,c-1,c,c+1,…,T]` otherwise |
| `UserPagination.PagerWellFormed` | src/components/PartnerUsersPage.tsx:212-242 | for a current page in `[1, T]`, the row has at most seven entries; its page numbers strictly ascend within `[1, T]`; it includes 1, `T` and the current page; an ellipsis stands exactly between two shown pages that are not adjacent |
| `UserPagination.UsersPage.constructor` | src/components/PartnerUsersPage.tsx:109 | the list opens on page 1 |
| `UserPagination.UsersPage.ShownUsers` | src/components/PartnerUsersPage.tsx:121-123 | in every valid state the current page shows between one and eight users |
| `UserPagination.UsersPage.Previous` | src/components/PartnerUsersPage.tsx:317 | Previous sets the page to `max(p - 1, 1)` and keeps it in `[1, totalPages]` |
| `UserPagination.UsersPage.Next` | src/components/PartnerUsersPage.tsx:325 | Next sets the page to `min(p + 1, totalPages)` and keeps it in `[1, totalPages]` |
| `UserPagination.UsersPage.GoToPage` | src/components/PartnerUsersPage.tsx:198-201 | a click on a shown page button moves to that page, which is always in `[1, totalPages]` |
| `UserPagination.UsersPage.Pagination` | src/components/PartnerUsersPage.tsx:323 | the row rendered for the current state is `PagerLayout(currentPage, totalPages)` |

## Left out

- Rendering: JSX markup, CSS classes, icons and layout are not modelled. Agreement titles, types and contents are not modelled either, since only the ids key the flags.
- Browser scroll mechanics are not modelled. The three measurements of a scroll event are inputs.
- The generated user fixtures are not modelled, because `Math.random` draws their counters. The user list is a parameter of any element type.
- UserPagination.UsersPage.constructor requires a non-empty user list, while the source's list has twenty users. With no users, Next from page 1 would leave the page range (see `NextOnEmptyList`), so the page-range invariant is stated for non-empty lists only.
- The partner account page, the data-access module over the hosted table service, and the type declarations are not part of this model. They are form binding, calls into a remote service, and declarations without logic.
- The navigation callbacks (`onClose`, `onDashboardClick`, `onNavigate`) and the modals opened from the users page are not part of this model.
- React's batching of state updates is not modelled. Each handler's update is applied at once, so the `prev => …` updaters and direct reads of the state coincide.
