/**
 * The job board: every posting of every listing, featured postings first
 * and newest first within each group, narrowed by city, job type and a
 * case-insensitive substring of the posting's title or the listing's name.
 */
module JobBoard {
  import opened Wrappers
  import opened Seqs
  import opened Sorting
  import opened Text
  import opened Directory

  /** A posting together with the listing that offers it. */
  datatype Posting = Posting(job: Job, business: Business)

  function PostingsOf(b: Business): (r: seq<Posting>)
    ensures |r| == |b.jobs| && forall i :: 0 <= i < |r| ==> r[i] == Posting(b.jobs[i], b)
  {
    seq(|b.jobs|, i requires 0 <= i < |b.jobs| => Posting(b.jobs[i], b))
  }

  /** `flatMap` over the catalog, listings in catalog order and each listing's jobs in order. */
  function Postings(catalog: seq<Business>): seq<Posting>
  {
    if catalog == [] then [] else PostingsOf(catalog[0]) + Postings(catalog[1..])
  }

  function JobCount(catalog: seq<Business>): nat
  {
    if catalog == [] then 0 else |catalog[0].jobs| + JobCount(catalog[1..])
  }

  /**
   * A posting is on the board exactly when its listing is in the catalog
   * and lists the job, and the board holds as many postings as the
   * listings hold jobs.
   */
  lemma {:induction false} PostingsComplete(catalog: seq<Business>)
    ensures |Postings(catalog)| == JobCount(catalog)
    ensures forall p :: p in Postings(catalog) <==> p.business in catalog && p.job in p.business.jobs
  {
    if catalog != [] {
      PostingsComplete(catalog[1..]);
      var b := catalog[0];
      forall p
        ensures p in Postings(catalog) <==> p.business in catalog && p.job in p.business.jobs
      {
        if p in PostingsOf(b) {
          var i :| 0 <= i < |b.jobs| && PostingsOf(b)[i] == p;
        }
        if p.business == b && p.job in b.jobs {
          var i :| 0 <= i < |b.jobs| && b.jobs[i] == p.job;
          assert PostingsOf(b)[i] == p;
        }
      }
    }
  }

  /** An absent flag counts as not featured. */
  predicate IsFeatured(j: Job)
  {
    j.isFeatured == Some(true)
  }

  /** Featured first, then the most recent first. */
  function JobKey(p: Posting): Key
  {
    Key(if IsFeatured(p.job) then 0 else 1, -p.job.postedAt)
  }

  /** `allJobs`: the comparator is consistent, so the stable sort orders exactly by `JobKey`. */
  function AllJobs(catalog: seq<Business>): (r: seq<Posting>)
    ensures multiset(r) == multiset(Postings(catalog)) && SortedBy(r, JobKey)
  {
    SortBy(Postings(catalog), JobKey)
  }

  /**
   * The board holds every posting once, featured postings come before the
   * others, within each group newer postings come first, and postings with
   * the same status and date keep their catalog order.
   */
  lemma {:induction false} AllJobsOrdered(catalog: seq<Business>)
    ensures multiset(AllJobs(catalog)) == multiset(Postings(catalog))
    ensures forall i, j :: 0 <= i < j < |AllJobs(catalog)| && IsFeatured(AllJobs(catalog)[j].job) ==>
              IsFeatured(AllJobs(catalog)[i].job)
    ensures forall i, j ::
              (0 <= i < j < |AllJobs(catalog)| && IsFeatured(AllJobs(catalog)[i].job) == IsFeatured(AllJobs(catalog)[j].job)) ==>
              AllJobs(catalog)[i].job.postedAt >= AllJobs(catalog)[j].job.postedAt
  {
    var all := AllJobs(catalog);
    forall i, j | 0 <= i < j < |all|
      ensures IsFeatured(all[j].job) ==> IsFeatured(all[i].job)
      ensures IsFeatured(all[i].job) == IsFeatured(all[j].job) ==> all[i].job.postedAt >= all[j].job.postedAt
    {
      assert KeyLe(JobKey(all[i]), JobKey(all[j]));
    }
  }

  /** Two postings with the same featured status and date stay in catalog order. */
  lemma {:induction false} AllJobsStable(catalog: seq<Business>, i: nat, j: nat)
    requires i < j < |AllJobs(catalog)|
    requires JobKey(AllJobs(catalog)[i]) == JobKey(AllJobs(catalog)[j])
    ensures exists a, b :: 0 <= a < b < |Postings(catalog)| &&
              Postings(catalog)[a] == AllJobs(catalog)[i] && Postings(catalog)[b] == AllJobs(catalog)[j]
  {
    SortedTiesKeepOrder(Postings(catalog), JobKey, i, j);
  }

  /** The board's filters; `""` and `None` mean unset. */
  datatype JobFilter = JobFilter(city: string, jobType: Option<JobType>, query: string)

  predicate JobMatches(p: Posting, f: JobFilter)
  {
    && (f.city == "" || p.business.city == f.city)
    && (f.jobType.None? || p.job.jobType == f.jobType.value)
    && (f.query == "" || Contains(Lower(p.job.title), Lower(f.query)) || Contains(Lower(p.business.name), Lower(f.query)))
  }

  function Matching(f: JobFilter): Posting -> bool
  {
    p => JobMatches(p, f)
  }

  /** `filteredJobs`. */
  function FilteredJobs(catalog: seq<Business>, f: JobFilter): (r: seq<Posting>)
    ensures forall p :: p in r <==> p in AllJobs(catalog) && JobMatches(p, f)
  {
    Filter(AllJobs(catalog), Matching(f))
  }

  /**
   * The filtered board holds exactly the postings that pass every set
   * filter, and keeps the board's order.
   */
  lemma {:induction false} FilteredJobsCorrect(catalog: seq<Business>, f: JobFilter)
    ensures forall p :: p in FilteredJobs(catalog, f) <==>
              p.business in catalog && p.job in p.business.jobs && JobMatches(p, f)
    ensures IsSubseq(FilteredJobs(catalog, f), AllJobs(catalog))
    ensures SortedBy(FilteredJobs(catalog, f), JobKey)
  {
    var all := AllJobs(catalog);
    PostingsComplete(catalog);
    assert forall p :: p in all <==> p in Postings(catalog) by {
      assert forall p :: p in all <==> p in multiset(all);
      assert forall p :: p in Postings(catalog) <==> p in multiset(Postings(catalog));
    }
    FilterIsSubseq(all, Matching(f));
    SubseqSorted(FilteredJobs(catalog, f), all, JobKey);
  }

  /** With no filter set the whole board is shown. */
  lemma {:induction false} NoFilterShowsAll(catalog: seq<Business>)
    ensures FilteredJobs(catalog, JobFilter("", None, "")) == AllJobs(catalog)
  {
    FilterKeepsAll(AllJobs(catalog), Matching(JobFilter("", None, "")));
  }
}
