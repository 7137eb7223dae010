/** The order lifecycle table (order_lifecycle.py) and the reading of a broker's status word. */
module OrderStatuses {
  import opened Wrappers
  import opened PyText

  datatype Status =
    | PendingApproval | Approved | Submitting | Submitted | PartiallyFilled
    | Filled | Rejected | SubmissionFailed | Canceled

  const TERMINAL: set<Status> := {Filled, Rejected, Canceled}
  const APPROVABLE: set<Status> := {PendingApproval, SubmissionFailed}
  const CANCELABLE: set<Status> := {PendingApproval, Approved, Submitted, PartiallyFilled, SubmissionFailed}

  /** ORDER_TRANSITIONS */
  function Successors(status: Status): set<Status> {
    match status
    case PendingApproval => {Approved, Rejected, Canceled}
    case Approved => {Submitting, Canceled}
    case Submitting => {Submitted, PartiallyFilled, Filled, Rejected, SubmissionFailed, Canceled}
    case SubmissionFailed => {Approved, Rejected, Canceled}
    case Submitted => {PartiallyFilled, Filled, Rejected, Canceled}
    case PartiallyFilled => {Filled, Rejected, Canceled}
    case Filled => {}
    case Rejected => {}
    case Canceled => {}
  }

  predicate CanTransition(was: Status, target: Status) {
    was == target || target in Successors(was)
  }

  predicate CanApprove(status: Status) {
    status in APPROVABLE
  }

  predicate CanCancel(status: Status) {
    status in CANCELABLE
  }

  predicate IsTerminal(status: Status) {
    status in TERMINAL
  }

  datatype EventKind =
    | ManualOrderStaged | AiDecisionOrderCreated | ApprovalPreviewed | ConfirmationFailed
    | RejectedBySafety | OrderApproved | BrokerSubmitStarted | BrokerSubmitFailed | BrokerSubmitResult
    | OrderCanceled | BrokerCancelFailed | BrokerCancelResult
    | StatusRefreshed | BrokerRefreshFailed | BrokerStatusRefreshed

  /** The timestamp columns of an order, of which the model keeps whether they are set. */
  datatype Stamp = ApprovedAt | SubmittedAt | FilledAt | RejectedAt | FailedAt | CanceledAt

  /** The column that `_stamp_status_time` fills in. */
  function StampFor(status: Status): set<Stamp> {
    match status
    case Approved => {ApprovedAt}
    case Submitting => {SubmittedAt}
    case Submitted => {SubmittedAt}
    case Filled => {FilledAt}
    case Rejected => {RejectedAt}
    case SubmissionFailed => {FailedAt}
    case Canceled => {CanceledAt}
    case _ => {}
  }

  /** The status that a word in capitals stands for; an unknown word counts as a failed submission. */
  function ReadWord(w: string): (status: Status)
    ensures CanTransition(Submitting, status)
    ensures status !in {PendingApproval, Approved, Submitting}
  {
    if w == "SUBMITTED" || w == "ACCEPTED" then Submitted
    else if w == "FILLED" || w == "EXECUTED" then Filled
    else if w == "PARTIALLY_FILLED" || w == "PARTIAL" then PartiallyFilled
    else if w == "REJECTED" || w == "REJECT" then Rejected
    else if w == "CANCELED" || w == "CANCELLED" then Canceled
    else SubmissionFailed
  }

  /** `_normalize_broker_status` */
  function NormalizeBrokerStatus(word: string): (status: Status)
    ensures CanTransition(Submitting, status)
    ensures status !in {PendingApproval, Approved, Submitting}
  {
    ReadWord(Upper(word))
  }

  /** The plain word for a status a broker can report. */
  function StatusWord(status: Status): string {
    match status
    case Submitted => "SUBMITTED"
    case PartiallyFilled => "PARTIALLY_FILLED"
    case Filled => "FILLED"
    case Rejected => "REJECTED"
    case Canceled => "CANCELED"
    case _ => "UNKNOWN"
  }

  lemma CapitalWord(w: string)
    requires forall i :: 0 <= i < |w| ==> IsCapital(w[i])
    ensures NormalizeBrokerStatus(w) == ReadWord(w)
  {
    UpperKeepsCapitals(w);
  }

  lemma LastWordsAreRead()
    ensures ReadWord("REJECTED") == Rejected && ReadWord("CANCELED") == Canceled
  {
    assert "REJECTED"[0] == 'R' && "CANCELED"[0] == 'C';
    assert "SUBMITTED"[0] == 'S' && "ACCEPTED"[0] == 'A' && "EXECUTED"[0] == 'E';
  }

  lemma RejectedReadsBack()
    ensures NormalizeBrokerStatus("REJECTED") == Rejected
  {
    LastWordsAreRead();
    CapitalWord("REJECTED");
  }

  lemma CanceledReadsBack()
    ensures NormalizeBrokerStatus("CANCELED") == Canceled
  {
    LastWordsAreRead();
    CapitalWord("CANCELED");
  }

  lemma SubmittedReadsBack()
    ensures NormalizeBrokerStatus("SUBMITTED") == Submitted
  {
    CapitalWord("SUBMITTED");
  }

  lemma PartiallyFilledIsRead()
    ensures ReadWord("PARTIALLY_FILLED") == PartiallyFilled
  {
  }

  lemma PartiallyFilledReadsBack()
    ensures NormalizeBrokerStatus("PARTIALLY_FILLED") == PartiallyFilled
  {
    PartiallyFilledIsRead();
    CapitalWord("PARTIALLY_FILLED");
  }

  lemma FilledReadsBack()
    ensures NormalizeBrokerStatus("FILLED") == Filled
  {
    CapitalWord("FILLED");
  }

  predicate IsBrokerStatus(status: Status) {
    status.Submitted? || status.PartiallyFilled? || status.Filled? || status.Rejected? || status.Canceled?
  }

  lemma OpenWordReadsBack(status: Status)
    requires status == Submitted || status == PartiallyFilled
    ensures NormalizeBrokerStatus(StatusWord(status)) == status
  {
    if status == Submitted {
      SubmittedReadsBack();
    } else {
      PartiallyFilledReadsBack();
    }
  }

  lemma LastWordReadsBack(status: Status)
    requires status == Rejected || status == Canceled
    ensures NormalizeBrokerStatus(StatusWord(status)) == status
  {
    if status == Rejected {
      RejectedReadsBack();
    } else {
      CanceledReadsBack();
    }
  }

  lemma WordReadsBack(status: Status)
    requires IsBrokerStatus(status)
    ensures NormalizeBrokerStatus(StatusWord(status)) == status
  {
    if status == Filled {
      FilledReadsBack();
    } else if status == Rejected || status == Canceled {
      LastWordReadsBack(status);
    } else {
      OpenWordReadsBack(status);
    }
  }

  /** The table read by its targets: from which statuses each one can be reached. */
  lemma TableByTarget(was: Status, target: Status)
    requires was != target
    ensures CanTransition(was, target) <==>
      match target
      case PendingApproval => false
      case Approved => was == PendingApproval || was == SubmissionFailed
      case Submitting => was == Approved
      case SubmissionFailed => was == Submitting
      case Submitted => was == Submitting
      case PartiallyFilled => was == Submitting || was == Submitted
      case Filled => was == Submitting || was == Submitted || was == PartiallyFilled
      case Canceled => was != Filled && was != Rejected
      case Rejected => was != Filled && was != Canceled && was != Approved
  {
  }

  /** The sets of statuses agree with the table: a final status is one without successors, an order
      can be approved where the table leads to APPROVED, and it can be canceled where the table leads
      to CANCELED, except while its submission is under way. */
  lemma SetsFollowTable(status: Status)
    ensures IsTerminal(status) <==> forall target :: target != status ==> !CanTransition(status, target)
    ensures CanApprove(status) <==> status != Approved && CanTransition(status, Approved)
    ensures CanCancel(status) <==> status != Canceled && status != Submitting && CanTransition(status, Canceled)
  {
    if !IsTerminal(status) {
      assert CanTransition(status, Canceled);
    }
  }

  /** The words that count, in capitals. Every other word counts as a failed submission. */
  lemma WordsExactly(word: string)
    ensures NormalizeBrokerStatus(word) == Submitted <==> Upper(word) == "SUBMITTED" || Upper(word) == "ACCEPTED"
    ensures NormalizeBrokerStatus(word) == Filled <==> Upper(word) == "FILLED" || Upper(word) == "EXECUTED"
    ensures NormalizeBrokerStatus(word) == PartiallyFilled <==> Upper(word) == "PARTIALLY_FILLED" || Upper(word) == "PARTIAL"
    ensures NormalizeBrokerStatus(word) == Rejected <==> Upper(word) == "REJECTED" || Upper(word) == "REJECT"
    ensures NormalizeBrokerStatus(word) == Canceled <==> Upper(word) == "CANCELED" || Upper(word) == "CANCELLED"
    ensures NormalizeBrokerStatus(word) in {Submitted, Filled, PartiallyFilled, Rejected, Canceled, SubmissionFailed}
  {
  }
}
