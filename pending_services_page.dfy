/** The pending-services page: the garage's pending job cards, fetched with
    `?status=pending`, and the search over them. */
module PendingServicesPage {
  import opened Common
  import opened Text
  import opened Schema
  import opened Storage

  /** The status the page asks the server for. */
  const PendingQuery: string := "pending"

  /** The search test: the lower-cased customer name or bike number
      includes the lower-cased term, or the phone includes the term as typed. */
  predicate JobMatches(j: JobCard, term: string)
  {
    Includes(ToLower(j.customerName), ToLower(term)) || Includes(ToLower(j.bikeNumber), ToLower(term))
    || Includes(j.phone, term)
  }

  /** filteredJobs: the jobs the list shows, in the order fetched. */
  function FilteredJobs(jobs: seq<JobCard>, term: string): (r: seq<JobCard>)
    ensures forall j :: j in r <==> j in jobs && JobMatches(j, term)
    ensures forall j :: multiset(r)[j] == if JobMatches(j, term) then multiset(jobs)[j] else 0
    ensures IsSubsequence(r, jobs)
  {
    Filter(jobs, (j: JobCard) => JobMatches(j, term))
  }

  /** An empty search shows every job. */
  lemma EmptySearchShowsAllJobs(jobs: seq<JobCard>)
    ensures FilteredJobs(jobs, "") == jobs
  {
    forall i | 0 <= i < |jobs| ensures JobMatches(jobs[i], "") {
      IncludesEmpty(ToLower(jobs[i].customerName));
    }
    FilterKeepsAll(jobs, (j: JobCard) => JobMatches(j, ""));
  }

  /** What the page lists is pending cards of its own garage, newest first;
      and with an empty search it lists every pending card of the garage. */
  lemma PageListsThePendingCards(s: Store, garageId: string, term: string)
    requires s.Valid()
    ensures forall j :: j in FilteredJobs(s.GetJobCards(garageId, PendingQuery), term)
                        ==> j in s.jobCards && j.garageId == garageId && j.status == Pending
    ensures NonIncreasing(FilteredJobs(s.GetJobCards(garageId, PendingQuery), term), JobCardTime)
    ensures forall j :: j in s.jobCards && j.garageId == garageId && j.status == Pending
                        ==> j in FilteredJobs(s.GetJobCards(garageId, PendingQuery), "")
  {
    var listed := s.GetJobCards(garageId, PendingQuery);
    forall j | j in listed ensures j.status == Pending {
      assert StatusText(j.status) == "pending";
    }
    ListingsNewestFirst(s, garageId, PendingQuery, "");
    SubsequenceKeepsOrder(FilteredJobs(listed, term), listed, JobCardTime);
    EmptySearchShowsAllJobs(listed);
  }
}
