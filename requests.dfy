/** The faculty-request review page (project/app/admin/requests/page.tsx):
    approve and reject by id, the search-and-status filter, the status tabs
    and the status counters. */
module Requests {
  import opened Types
  import Seqs
  import Text
  import UiStore

  const ApprovedMessage: string := "Faculty request has been approved successfully."
  const RejectedMessage: string := "Faculty request has been rejected."

  /** The search box matches the teacher's name or the reason, ignoring case. */
  predicate MatchesSearch(r: FacultyRequest, query: string) {
    Text.IncludesIgnoreCase(r.teacherName, query) || Text.IncludesIgnoreCase(r.reason, query)
  }

  /** The status drop-down: "all" or the name of one status. */
  predicate MatchesStatusFilter(r: FacultyRequest, statusFilter: string) {
    statusFilter == "all" || StatusName(r.status) == statusFilter
  }

  function Listed(query: string, statusFilter: string): FacultyRequest -> bool {
    (r: FacultyRequest) => MatchesSearch(r, query) && MatchesStatusFilter(r, statusFilter)
  }

  /** `filteredRequests`: the requests shown under the "all" tab, in order. */
  function FilteredRequests(requests: seq<FacultyRequest>, query: string, statusFilter: string): (r: seq<FacultyRequest>)
    ensures Seqs.IsSubsequence(r, requests)
    ensures forall x :: multiset(r)[x] == (if Listed(query, statusFilter)(x) then multiset(requests)[x] else 0)
  {
    Seqs.FilterSpec(requests, Listed(query, statusFilter));
    Seqs.Filter(requests, Listed(query, statusFilter))
  }

  /** An empty search with the "all" filter lists every request. */
  lemma EmptySearchListsAll(requests: seq<FacultyRequest>)
    ensures FilteredRequests(requests, "", "all") == requests
  {
    forall i | 0 <= i < |requests| ensures Listed("", "all")(requests[i]) {
      Text.EmptyNeedleMatches(requests[i].teacherName);
    }
    Seqs.FilterKeepsAll(requests, Listed("", "all"));
  }

  function HasStatus(s: RequestStatus): FacultyRequest -> bool {
    (r: FacultyRequest) => r.status == s
  }

  /** The per-status tab: `requests.filter(r => r.status === status)`, from
      the unfiltered list, whatever the search box holds. */
  function StatusTab(requests: seq<FacultyRequest>, s: RequestStatus): (r: seq<FacultyRequest>)
    ensures Seqs.IsSubsequence(r, requests)
    ensures forall x :: multiset(r)[x] == if x.status == s then multiset(requests)[x] else 0
  {
    Seqs.FilterSpec(requests, HasStatus(s));
    Seqs.Filter(requests, HasStatus(s))
  }

  datatype RequestStats = RequestStats(total: nat, pending: nat, approved: nat, rejected: nat)

  /** `requestStats`: the three status counters partition the total. */
  function Stats(requests: seq<FacultyRequest>): (st: RequestStats)
    ensures st.total == |requests|
    ensures st.pending == |StatusTab(requests, Pending)|
    ensures st.approved == |StatusTab(requests, Approved)|
    ensures st.rejected == |StatusTab(requests, Rejected)|
    ensures st.pending + st.approved + st.rejected == st.total
  {
    var st := RequestStats(|requests|, Seqs.Count(requests, HasStatus(Pending)),
                           Seqs.Count(requests, HasStatus(Approved)), Seqs.Count(requests, HasStatus(Rejected)));
    Seqs.CountIsFilterLength(requests, HasStatus(Pending));
    Seqs.CountIsFilterLength(requests, HasStatus(Approved));
    Seqs.CountIsFilterLength(requests, HasStatus(Rejected));
    StatusCountsPartition(requests);
    st
  }

  lemma StatusCountsPartition(requests: seq<FacultyRequest>)
    ensures Seqs.Count(requests, HasStatus(Pending)) + Seqs.Count(requests, HasStatus(Approved))
          + Seqs.Count(requests, HasStatus(Rejected)) == |requests|
  {
    var decided := (r: FacultyRequest) => r.status == Approved || r.status == Rejected;
    Seqs.CountDisjoint(requests, HasStatus(Approved), HasStatus(Rejected), decided);
    Seqs.CountDisjoint(requests, HasStatus(Pending), decided, (r: FacultyRequest) => true);
    Seqs.CountAll(requests, (r: FacultyRequest) => true);
  }

  /** `prev.map(req => req.id === id ? { ...req, status } : req)`. */
  function WithStatus(requests: seq<FacultyRequest>, id: string, status: RequestStatus): (r: seq<FacultyRequest>)
    ensures |r| == |requests|
    ensures forall i :: 0 <= i < |r| && requests[i].id == id ==> r[i].status == status
    ensures forall i :: 0 <= i < |r| && requests[i].id != id ==> r[i] == requests[i]
    ensures forall i :: 0 <= i < |r| ==> r[i].(status := requests[i].status) == requests[i]
  {
    if requests == [] then []
    else [if requests[0].id == id then requests[0].(status := status) else requests[0]]
         + WithStatus(requests[1..], id, status)
  }

  /** Approving (or rejecting) twice is the same as once. */
  lemma WithStatusIdempotent(requests: seq<FacultyRequest>, id: string, status: RequestStatus)
    ensures WithStatus(WithStatus(requests, id, status), id, status) == WithStatus(requests, id, status)
  {
    var once := WithStatus(requests, id, status);
    var twice := WithStatus(once, id, status);
    forall i | 0 <= i < |requests| ensures twice[i] == once[i] {
      assert once[i].id == requests[i].id by {
        assert once[i].(status := requests[i].status) == requests[i];
      }
    }
  }

  predicate UniqueIds(requests: seq<FacultyRequest>) {
    forall i, j :: 0 <= i < j < |requests| ==> requests[i].id != requests[j].id
  }

  /** Approve and reject are offered only for a pending request. */
  predicate DecisionOffered(r: FacultyRequest) {
    r.status == Pending
  }

  /** With unique ids, deciding a request through the buttons the page offers
      leaves every already decided request as it was: approved and rejected
      are terminal. */
  lemma DecidedIsTerminal(requests: seq<FacultyRequest>, k: nat, i: nat, decision: RequestStatus)
    requires UniqueIds(requests)
    requires k < |requests| && DecisionOffered(requests[k])
    requires i < |requests| && requests[i].status != Pending
    ensures WithStatus(requests, requests[k].id, decision)[i] == requests[i]
  {
    assert i != k;
    assert requests[i].id != requests[k].id by {
      if i < k { assert requests[i].id != requests[k].id; } else { assert requests[k].id != requests[i].id; }
    }
  }

  /** Approving the one pending request with a given id moves one request
      from the pending counter to the approved one. */
  lemma ApproveMovesCounter(requests: seq<FacultyRequest>, k: nat)
    requires UniqueIds(requests)
    requires k < |requests| && requests[k].status == Pending
    ensures var after := Stats(WithStatus(requests, requests[k].id, Approved));
            && after.total == Stats(requests).total
            && after.pending == Stats(requests).pending - 1
            && after.approved == Stats(requests).approved + 1
            && after.rejected == Stats(requests).rejected
  {
    CountAfterDecision(requests, k, Approved, Pending);
    CountAfterDecision(requests, k, Approved, Approved);
    CountAfterDecision(requests, k, Approved, Rejected);
  }

  /** Rejecting the one pending request with a given id moves one request
      from the pending counter to the rejected one. */
  lemma RejectMovesCounter(requests: seq<FacultyRequest>, k: nat)
    requires UniqueIds(requests)
    requires k < |requests| && requests[k].status == Pending
    ensures var after := Stats(WithStatus(requests, requests[k].id, Rejected));
            && after.total == Stats(requests).total
            && after.pending == Stats(requests).pending - 1
            && after.approved == Stats(requests).approved
            && after.rejected == Stats(requests).rejected + 1
  {
    CountAfterDecision(requests, k, Rejected, Pending);
    CountAfterDecision(requests, k, Rejected, Approved);
    CountAfterDecision(requests, k, Rejected, Rejected);
  }

  /** Deciding the one pending request with a given id adds one to the
      count of the decision and takes one from the pending count. */
  lemma {:induction false} CountAfterDecision(requests: seq<FacultyRequest>, k: nat, decision: RequestStatus, s: RequestStatus)
    requires UniqueIds(requests)
    requires k < |requests| && requests[k].status == Pending
    ensures Seqs.Count(WithStatus(requests, requests[k].id, decision), HasStatus(s))
         == Seqs.Count(requests, HasStatus(s)) + (if s == decision then 1 else 0) - (if s == Pending then 1 else 0)
  {
    var id := requests[k].id;
    var after := WithStatus(requests, id, decision);
    assert after[1..] == WithStatus(requests[1..], id, decision);
    if k == 0 {
      forall i | 0 <= i < |requests[1..]| ensures requests[1..][i].id != id {
        assert requests[0].id != requests[i + 1].id;
      }
      WithStatusAbsentId(requests[1..], id, decision);
    } else {
      assert requests[0].id != id;
      assert requests[1..][k - 1] == requests[k];
      CountAfterDecision(requests[1..], k - 1, decision, s);
    }
  }

  /** Deciding an id that no request carries changes nothing. */
  lemma WithStatusAbsentId(requests: seq<FacultyRequest>, id: string, status: RequestStatus)
    requires forall i :: 0 <= i < |requests| ==> requests[i].id != id
    ensures WithStatus(requests, id, status) == requests
  {
  }

  /** The page's own state: the loaded requests and the two filter inputs. */
  class RequestsPage {
    var requests: seq<FacultyRequest>
    var searchQuery: string
    var statusFilter: string

    /** On mount the list is empty until the mock load resolves. */
    constructor ()
      ensures requests == [] && searchQuery == "" && statusFilter == "all"
    {
      requests := [];
      searchQuery := "";
      statusFilter := "all";
    }

    /** The mount effect's load: the fetched requests replace the list. */
    method LoadRequests(data: seq<FacultyRequest>)
      modifies this`requests
      ensures requests == data
    {
      requests := data;
    }

    /** The list under the "all" tab. */
    function Shown(): (r: seq<FacultyRequest>)
      reads this
      ensures Seqs.IsSubsequence(r, requests)
      ensures forall x :: multiset(r)[x] == (if Listed(searchQuery, statusFilter)(x) then multiset(requests)[x] else 0)
    {
      FilteredRequests(requests, searchQuery, statusFilter)
    }

    method SetSearchQuery(q: string)
      modifies this`searchQuery
      ensures searchQuery == q
    {
      searchQuery := q;
    }

    method SetStatusFilter(f: string)
      modifies this`statusFilter
      ensures statusFilter == f
    {
      statusFilter := f;
    }

    /** `handleApprove(id)`: marks every request with that id approved and
        posts a success notification (its random id and time are parameters). */
    method HandleApprove(id: string, store: UiStore.UIStore, noteId: string, now: string)
      requires store.Valid()
      modifies this`requests, store`notifications
      ensures store.Valid()
      ensures requests == WithStatus(old(requests), id, Approved)
      ensures store.notifications == UiStore.WithNotification(old(store.notifications),
        UiStore.Notification(noteId, "Request Approved", ApprovedMessage, UiStore.Success, now))
    {
      requests := WithStatus(requests, id, Approved);
      store.AddNotification("Request Approved", ApprovedMessage, UiStore.Success, noteId, now);
    }

    /** `handleReject(id)`: marks every request with that id rejected and
        posts an information notification. */
    method HandleReject(id: string, store: UiStore.UIStore, noteId: string, now: string)
      requires store.Valid()
      modifies this`requests, store`notifications
      ensures store.Valid()
      ensures requests == WithStatus(old(requests), id, Rejected)
      ensures store.notifications == UiStore.WithNotification(old(store.notifications),
        UiStore.Notification(noteId, "Request Rejected", RejectedMessage, UiStore.Info, now))
    {
      requests := WithStatus(requests, id, Rejected);
      store.AddNotification("Request Rejected", RejectedMessage, UiStore.Info, noteId, now);
    }
  }
}
