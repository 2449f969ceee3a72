/**
 * The job feed of the jobs page: expiry, the tab filter over search text,
 * location text and the active tab, the relative-age label, the share links,
 * the skills badges, and the page state that holds the filter inputs and the
 * ids of the jobs the user has applied to.
 */
module Jobs {
  import opened Wrappers
  import opened Text
  import Sequences
  import Uri
  import Badges

  /** A Date's time value in milliseconds since the epoch, or NaN (`Invalid`) when the date text does not parse. */
  datatype Instant = At(ms: int) | Invalid

  /** A job posting joined with its company; only the company's name is read here. */
  datatype Job = Job(
    id: string,
    title: string,
    companyName: string,
    location: string,
    skills: string,
    salary: string,
    experienceMin: int,
    experienceMax: int,
    experienceLevel: string,
    closingDate: Instant,
    isActive: bool,
    createdAt: Instant,
    applyUrl: Option<string>)

  datatype Application = Application(userId: string, jobId: string)

  const HourMs: int := 1000 * 60 * 60
  const DayMs: int := 24 * HourMs
  const RecentWindowMs: int := 48 * 60 * 60 * 1000

  // ---------------------------------------------------------------- expiry

  /** `closingDate < now`; every comparison with NaN is false. */
  predicate IsExpired(closing: Instant, now: int)
  {
    closing.At? && closing.ms < now
  }

  /** `now - closingDate <= 48 hours`, computed by the filter but read by no tab. */
  predicate IsExpiredRecently(closing: Instant, now: int)
  {
    closing.At? && now - closing.ms <= RecentWindowMs
  }

  lemma ExpiryFacts(closing: Instant, now: int, later: int)
    requires now <= later
    ensures IsExpired(closing, now) ==> IsExpired(closing, later)
    ensures closing == At(now) ==> !IsExpired(closing, now)
    ensures closing.Invalid? ==> !IsExpired(closing, later) && !IsExpiredRecently(closing, now)
    ensures closing.At? && now <= closing.ms ==> !IsExpired(closing, now) && IsExpiredRecently(closing, now)
  {
  }

  // ------------------------------------------------------------ tab filter

  /** An empty search matches everything; otherwise the folded term must occur in the title, company name or skills. */
  predicate MatchesSearch(job: Job, searchTerm: string)
  {
    var term := Lower(searchTerm);
    searchTerm == "" ||
    Contains(Lower(job.title), term) || Contains(Lower(job.companyName), term) || Contains(Lower(job.skills), term)
  }

  predicate MatchesLocation(job: Job, locationFilter: string)
  {
    locationFilter == "" || Contains(Lower(job.location), Lower(locationFilter))
  }

  /** The per-tab clause; any tab other than the three named ones behaves as "all". */
  predicate InTab(job: Job, activeTab: string, now: int)
  {
    if activeTab == "fresher" then job.experienceLevel == "fresher" && !IsExpired(job.closingDate, now)
    else if activeTab == "experienced" then job.experienceLevel == "experienced" && !IsExpired(job.closingDate, now)
    else if activeTab == "expired" then IsExpired(job.closingDate, now) || !job.isActive
    else !IsExpired(job.closingDate, now) && job.isActive
  }

  predicate IsListed(job: Job, searchTerm: string, locationFilter: string, activeTab: string, now: int)
  {
    MatchesSearch(job, searchTerm) && MatchesLocation(job, locationFilter) && InTab(job, activeTab, now)
  }

  function ListedBy(searchTerm: string, locationFilter: string, activeTab: string, now: int): Job -> bool
  {
    job => IsListed(job, searchTerm, locationFilter, activeTab, now)
  }

  /** `filteredJobs`: `allJobs` is None when the query data is not an array. */
  function FilterJobs(allJobs: Option<seq<Job>>, searchTerm: string, locationFilter: string, activeTab: string, now: int): (r: seq<Job>)
    ensures allJobs.None? ==> r == []
    ensures allJobs.Some? ==> Sequences.IsSubsequence(r, allJobs.value)
    ensures forall job :: job in r <==>
      allJobs.Some? && job in allJobs.value && IsListed(job, searchTerm, locationFilter, activeTab, now)
    ensures allJobs.Some? ==>
              forall job :: multiset(r)[job] ==
                (if IsListed(job, searchTerm, locationFilter, activeTab, now) then multiset(allJobs.value)[job] else 0)
  {
    match allJobs
    case None => []
    case Some(jobs) =>
      var keep := ListedBy(searchTerm, locationFilter, activeTab, now);
      Sequences.FilterIsSubsequence(jobs, keep);
      Sequences.FilterCount(jobs, keep);
      Sequences.Filter(jobs, keep)
  }

  /** What each tab lists, stated on the result of the filter. */
  lemma TabMembership(jobs: seq<Job>, job: Job, searchTerm: string, locationFilter: string, now: int)
    requires job in jobs && MatchesSearch(job, searchTerm) && MatchesLocation(job, locationFilter)
    ensures job in FilterJobs(Some(jobs), searchTerm, locationFilter, "all", now) <==>
      !IsExpired(job.closingDate, now) && job.isActive
    ensures job in FilterJobs(Some(jobs), searchTerm, locationFilter, "fresher", now) <==>
      job.experienceLevel == "fresher" && !IsExpired(job.closingDate, now)
    ensures job in FilterJobs(Some(jobs), searchTerm, locationFilter, "experienced", now) <==>
      job.experienceLevel == "experienced" && !IsExpired(job.closingDate, now)
    ensures job in FilterJobs(Some(jobs), searchTerm, locationFilter, "expired", now) <==>
      IsExpired(job.closingDate, now) || !job.isActive
  {
  }

  /** A job that has not closed but was switched off is listed under "fresher" and "expired", never under "all". */
  lemma InactiveOpenFresherJob(jobs: seq<Job>, job: Job, searchTerm: string, locationFilter: string, now: int)
    requires job in jobs && MatchesSearch(job, searchTerm) && MatchesLocation(job, locationFilter)
    requires job.closingDate.At? && job.closingDate.ms >= now && !job.isActive && job.experienceLevel == "fresher"
    ensures job in FilterJobs(Some(jobs), searchTerm, locationFilter, "fresher", now)
    ensures job in FilterJobs(Some(jobs), searchTerm, locationFilter, "expired", now)
    ensures job !in FilterJobs(Some(jobs), searchTerm, locationFilter, "all", now)
    ensures job !in FilterJobs(Some(jobs), searchTerm, locationFilter, "experienced", now)
  {
    TabMembership(jobs, job, searchTerm, locationFilter, now);
  }

  /** Every tab value other than "fresher", "experienced" and "expired" lists exactly what "all" lists. */
  lemma UnknownTabIsAll(allJobs: Option<seq<Job>>, searchTerm: string, locationFilter: string, activeTab: string, now: int)
    requires activeTab != "fresher" && activeTab != "experienced" && activeTab != "expired"
    ensures FilterJobs(allJobs, searchTerm, locationFilter, activeTab, now) ==
            FilterJobs(allJobs, searchTerm, locationFilter, "all", now)
  {
    if allJobs.Some? {
      Sequences.FilterCongruent(allJobs.value, ListedBy(searchTerm, locationFilter, activeTab, now),
                                ListedBy(searchTerm, locationFilter, "all", now));
    }
  }

  /** The jobs that match the search and location inputs, whatever the tab. */
  function Matching(jobs: seq<Job>, searchTerm: string, locationFilter: string): seq<Job>
  {
    Sequences.Filter(jobs, job => MatchesSearch(job, searchTerm) && MatchesLocation(job, locationFilter))
  }

  /** The "all" and "expired" tabs split the matching jobs between them: each one lands in exactly one. */
  lemma AllAndExpiredPartition(jobs: seq<Job>, searchTerm: string, locationFilter: string, now: int)
    ensures multiset(FilterJobs(Some(jobs), searchTerm, locationFilter, "all", now)) +
            multiset(FilterJobs(Some(jobs), searchTerm, locationFilter, "expired", now)) ==
            multiset(Matching(jobs, searchTerm, locationFilter))
    ensures forall job :: !(job in FilterJobs(Some(jobs), searchTerm, locationFilter, "all", now) &&
                            job in FilterJobs(Some(jobs), searchTerm, locationFilter, "expired", now))
  {
    Sequences.FilterPartition(jobs,
      (job: Job) => MatchesSearch(job, searchTerm) && MatchesLocation(job, locationFilter),
      (job: Job) => !IsExpired(job.closingDate, now) && job.isActive,
      ListedBy(searchTerm, locationFilter, "all", now),
      ListedBy(searchTerm, locationFilter, "expired", now));
  }

  /** The filter is a pure function of its inputs: filtering its own output again changes nothing. */
  lemma FilterJobsIdempotent(allJobs: Option<seq<Job>>, searchTerm: string, locationFilter: string, activeTab: string, now: int)
    ensures var r := FilterJobs(allJobs, searchTerm, locationFilter, activeTab, now);
            FilterJobs(Some(r), searchTerm, locationFilter, activeTab, now) == r
  {
    if allJobs.Some? {
      Sequences.FilterIdempotent(allJobs.value, ListedBy(searchTerm, locationFilter, activeTab, now));
    }
  }

  /** A non-empty search is a case-insensitive substring test against title, company name and skills. */
  lemma SearchIsSubstringMatch(job: Job, searchTerm: string)
    requires searchTerm != ""
    ensures MatchesSearch(job, searchTerm) <==>
      (exists i :: OccursAt(Lower(job.title), Lower(searchTerm), i)) ||
      (exists i :: OccursAt(Lower(job.companyName), Lower(searchTerm), i)) ||
      (exists i :: OccursAt(Lower(job.skills), Lower(searchTerm), i))
  {
    ContainsAt(Lower(job.title), Lower(searchTerm));
    ContainsAt(Lower(job.companyName), Lower(searchTerm));
    ContainsAt(Lower(job.skills), Lower(searchTerm));
  }

  /** An empty location matches every job; a non-empty one is a case-insensitive substring test on the location. */
  lemma LocationIsSubstringMatch(job: Job, locationFilter: string)
    ensures locationFilter == "" ==> MatchesLocation(job, locationFilter) && MatchesSearch(job, "")
    ensures locationFilter != "" ==>
      (MatchesLocation(job, locationFilter) <==> exists i :: OccursAt(Lower(job.location), Lower(locationFilter), i))
  {
    ContainsAt(Lower(job.location), Lower(locationFilter));
  }

  /** Skills "React, Node.js" are found by "react" and by "NODE". */
  lemma SkillSearchExample(job: Job)
    requires job.skills == "React, Node.js"
    ensures MatchesSearch(job, "react") && MatchesSearch(job, "NODE")
  {
    var folded := Lower(job.skills);
    assert folded == "react, node.js";
    assert Lower("react") == "react" && Lower("NODE") == "node";
    assert OccursAt(folded, "react", 0);
    assert OccursAt(folded, "node", 7);
    ContainsAt(folded, "react");
    ContainsAt(folded, "node");
  }

  // ---------------------------------------------------------- age labels

  lemma HoursThenDays(diff: int)
    ensures (diff / HourMs) / 24 == diff / DayMs
  {
    var h := diff / HourMs;
    assert diff == h * HourMs + diff % HourMs;
    assert h == (h / 24) * 24 + h % 24;
    assert diff == (h / 24) * DayMs + ((h % 24) * HourMs + diff % HourMs);
  }

  /**
   * `getTimeAgo`: whole hours by floor division, then whole days of those hours.
   * An unparseable date gives NaN hours, which fails every test and prints as "NaN".
   */
  function TimeAgo(posted: Instant, now: int): (caption: string)
    ensures posted.Invalid? ==> caption == "NaN days ago"
    ensures posted.At? && now - posted.ms < HourMs ==> caption == "Less than 1 hour ago"
    ensures posted.At? && HourMs <= now - posted.ms < DayMs ==>
      caption == Decimal((now - posted.ms) / HourMs) + " hours ago"
    ensures posted.At? && DayMs <= now - posted.ms < 2 * DayMs ==> caption == "1 day ago"
    ensures posted.At? && 2 * DayMs <= now - posted.ms ==>
      caption == Decimal((now - posted.ms) / DayMs) + " days ago"
  {
    match posted
    case Invalid => "NaN days ago"
    case At(t) =>
      var diffHours := (now - t) / HourMs;
      var diffDays := diffHours / 24;
      HoursThenDays(now - t);
      if diffHours < 1 then "Less than 1 hour ago"
      else if diffHours < 24 then Decimal(diffHours) + " hours ago"
      else if diffDays == 1 then "1 day ago"
      else Decimal(diffDays) + " days ago"
  }

  /** Ninety minutes is one whole hour; the label does not switch to the singular. */
  lemma TimeAgoHourExamples(now: int)
    ensures TimeAgo(At(now - 59 * 60 * 1000), now) == "Less than 1 hour ago"
    ensures TimeAgo(At(now - 90 * 60 * 1000), now) == "1 hours ago"
  {
    assert now - (now - 90 * 60 * 1000) == 5400000;
    assert 5400000 / HourMs == 1;
    assert Decimal(1) == "1";
  }

  /** Twenty-five hours is "1 day ago", fifty hours two whole days. */
  lemma TimeAgoDayExamples(now: int)
    ensures TimeAgo(At(now - 25 * HourMs), now) == "1 day ago"
    ensures TimeAgo(At(now - 50 * HourMs), now) == "2 days ago"
  {
    assert now - (now - 50 * HourMs) == 180000000;
    assert 180000000 / DayMs == 2;
    assert Decimal(2) == "2";
  }

  // ---------------------------------------------------------------- share

  /** What a share button asks the browser to do: open a deep link, or copy the detail URL and say so. */
  datatype ShareAction = OpenWindow(url: string) | CopyLink(payload: string, notice: string)

  const WhatsAppPrefix: string := "https://wa.me/?text="
  const TelegramPrefix: string := "https://t.me/share/url?url="

  /** The detail page of a job, under the site's origin. */
  function JobUrl(origin: string, jobId: string): string
  {
    origin + "/jobs/" + jobId
  }

  function ShareText(job: Job): string
  {
    "Check out this job: " + job.title + " at " + job.companyName
  }

  /** The text a WhatsApp deep link carries decodes back to the message it was built from. */
  lemma WhatsAppQuery(message: string)
    ensures var url := WhatsAppPrefix + Uri.Encode(message);
            StartsWith(url, WhatsAppPrefix) && Uri.Decode(url[|WhatsAppPrefix|..]) == Some(message)
  {
    var url := WhatsAppPrefix + Uri.Encode(message);
    Uri.DecodeEncode(message);
    assert url[|WhatsAppPrefix|..] == Uri.Encode(message);
  }

  /**
   * The query of a Telegram deep link splits at '&' into exactly the encoded
   * URL and the "text=" parameter, because encoding never produces '&'.
   */
  lemma TelegramQuery(link: string, message: string)
    ensures var url := TelegramPrefix + Uri.Encode(link) + "&text=" + Uri.Encode(message);
            var params := Split(url[|TelegramPrefix|..], '&');
            StartsWith(url, TelegramPrefix) && |params| == 2 &&
            Uri.Decode(params[0]) == Some(link) &&
            StartsWith(params[1], "text=") && Uri.Decode(params[1][5..]) == Some(message)
  {
    var u, t := Uri.Encode(link), Uri.Encode(message);
    var rest := "text=" + t;
    var url := TelegramPrefix + u + "&text=" + t;
    assert url == TelegramPrefix + (u + ['&'] + rest);
    Uri.EncodeOmits(link, '&');
    Uri.EncodeOmits(message, '&');
    assert '&' !in rest;
    SplitPrefix(u, '&', rest);
    SplitWhole(rest, '&');
    assert url[|TelegramPrefix|..] == u + ['&'] + rest;
    assert rest[5..] == t;
    Uri.DecodeEncode(link);
    Uri.DecodeEncode(message);
  }

  /**
   * `handleShare`: what the receiving end decodes from each deep link is the
   * message and the detail URL; every other platform copies the detail URL.
   */
  function Share(origin: string, job: Job, platform: string): (action: ShareAction)
    ensures platform == "whatsapp" ==>
      action.OpenWindow? && StartsWith(action.url, WhatsAppPrefix) &&
      Uri.Decode(action.url[|WhatsAppPrefix|..]) == Some(ShareText(job) + " " + JobUrl(origin, job.id))
    ensures platform == "telegram" ==>
      action.OpenWindow? && StartsWith(action.url, TelegramPrefix) &&
      var params := Split(action.url[|TelegramPrefix|..], '&');
      |params| == 2 &&
      Uri.Decode(params[0]) == Some(JobUrl(origin, job.id)) &&
      StartsWith(params[1], "text=") && Uri.Decode(params[1][5..]) == Some(ShareText(job))
    ensures platform != "whatsapp" && platform != "telegram" ==>
      action.CopyLink? && action.payload == JobUrl(origin, job.id)
    ensures platform == "whatsapp" ==>
      action.url == WhatsAppPrefix + Uri.Encode(ShareText(job) + " " + JobUrl(origin, job.id))
    ensures platform == "telegram" ==>
      action.url == TelegramPrefix + Uri.Encode(JobUrl(origin, job.id)) + "&text=" + Uri.Encode(ShareText(job))
    ensures platform == "instagram" ==>
      action.notice == "Link copied to clipboard! You can paste it on Instagram."
    ensures platform != "whatsapp" && platform != "telegram" && platform != "instagram" ==>
      action.notice == "Link copied to clipboard!"
  {
    var jobUrl := JobUrl(origin, job.id);
    var text := ShareText(job);
    if platform == "whatsapp" then
      WhatsAppQuery(text + " " + jobUrl);
      OpenWindow(WhatsAppPrefix + Uri.Encode(text + " " + jobUrl))
    else if platform == "telegram" then
      TelegramQuery(jobUrl, text);
      OpenWindow(TelegramPrefix + Uri.Encode(jobUrl) + "&text=" + Uri.Encode(text))
    else if platform == "instagram" then
      CopyLink(jobUrl, "Link copied to clipboard! You can paste it on Instagram.")
    else
      CopyLink(jobUrl, "Link copied to clipboard!")
  }

  /** The WhatsApp link ends with the percent-encoded detail URL. */
  lemma WhatsAppLinkEndsWithEncodedJobUrl(origin: string, job: Job)
    ensures var url := Share(origin, job, "whatsapp").url;
            var encoded := Uri.Encode(JobUrl(origin, job.id));
            |encoded| <= |url| && url[|url| - |encoded|..] == encoded
  {
    Uri.EncodeAppend(ShareText(job) + " ", JobUrl(origin, job.id));
    assert ShareText(job) + " " + JobUrl(origin, job.id) == (ShareText(job) + " ") + JobUrl(origin, job.id);
  }

  // ------------------------------------------------------- display rules

  /** The skills badges: the first six comma-separated tokens, trimmed, then "+N more" for the rest. */
  function SkillBadges(skills: string): (row: Badges.Row)
    ensures |row.shown| <= |Split(skills, ',')|
    ensures |row.shown| == if Count(skills, ',') < 6 then Count(skills, ',') + 1 else 6
    ensures forall i :: 0 <= i < |row.shown| ==> row.shown[i] == Trim(Split(skills, ',')[i])
    ensures row.more.Some? <==> Count(skills, ',') >= 6
    ensures row.more.Some? ==> row.more.value == Count(skills, ',') - 5
  {
    var tokens := Split(skills, ',');
    SplitLength(skills, ',');
    var cut := Badges.Truncate(tokens, 6);
    Badges.Row(seq(|cut.shown|, i requires 0 <= i < |cut.shown| => Trim(cut.shown[i])), cut.more)
  }

  /** With seven or more comma-separated skills the row ends in a "+N more" badge counting the tokens after the sixth. */
  lemma SkillOverflowCaption(skills: string)
    requires Count(skills, ',') >= 6
    ensures var captions := Badges.Captions(SkillBadges(skills));
            var last := captions[|captions| - 1];
            |captions| == 7 && |last| >= 7 && last[..1] == "+" && last[|last| - 5..] == " more" &&
            (forall i :: 1 <= i < |last| - 5 ==> IsDigit(last[i])) &&
            DigitsValue(last[1..|last| - 5]) == Count(skills, ',') - 5
  {
  }

  /** Where "Apply Now" leads: the job's own apply URL when it is a non-empty string, else its detail page. */
  datatype Navigation = OpenExternal(url: string) | GoTo(path: string)

  function ApplyTarget(job: Job): (nav: Navigation)
    ensures nav.OpenExternal? <==> job.applyUrl.Some? && job.applyUrl.value != ""
    ensures nav.OpenExternal? ==> nav.url == job.applyUrl.value
    ensures nav.GoTo? ==> nav.path == JobUrl("", job.id)
  {
    match job.applyUrl
    case Some(url) => if url != "" then OpenExternal(url) else GoTo("/jobs/" + job.id)
    case None => GoTo("/jobs/" + job.id)
  }

  /** The job ids of an application list, in order. */
  function JobIds(applications: seq<Application>): (ids: seq<string>)
    ensures |ids| == |applications|
    ensures forall i :: 0 <= i < |applications| ==> ids[i] == applications[i].jobId
    ensures forall id :: id in ids <==> exists a :: a in applications && a.jobId == id
  {
    var ids := seq(|applications|, i requires 0 <= i < |applications| => applications[i].jobId);
    assert forall i :: 0 <= i < |applications| ==> ids[i] == applications[i].jobId;
    ids
  }

  // ------------------------------------------------------------ page state

  /** The jobs page's state: the three filter inputs and the applied-job ids. */
  class JobsPage {
    var searchTerm: string
    var locationFilter: string
    var activeTab: string
    var appliedJobs: seq<string>

    constructor ()
      ensures searchTerm == "" && locationFilter == "" && activeTab == "all" && appliedJobs == []
    {
      searchTerm, locationFilter, activeTab, appliedJobs := "", "", "all", [];
    }

    method SetSearchTerm(value: string)
      modifies this
      ensures searchTerm == value
      ensures locationFilter == old(locationFilter) && activeTab == old(activeTab) && appliedJobs == old(appliedJobs)
    {
      searchTerm := value;
    }

    method SetLocationFilter(value: string)
      modifies this
      ensures locationFilter == value
      ensures searchTerm == old(searchTerm) && activeTab == old(activeTab) && appliedJobs == old(appliedJobs)
    {
      locationFilter := value;
    }

    method SetActiveTab(value: string)
      modifies this
      ensures activeTab == value
      ensures searchTerm == old(searchTerm) && locationFilter == old(locationFilter) && appliedJobs == old(appliedJobs)
    {
      activeTab := value;
    }

    /** The effect on a new application list: its job ids replace the list only when it is a non-empty array. */
    method UpdateApplications(applications: Option<seq<Application>>)
      modifies this
      ensures applications.Some? && applications.value != [] ==> appliedJobs == JobIds(applications.value)
      ensures applications.Some? && applications.value != [] ==> (forall id ::
        IsApplied(id) <==> exists a :: a in applications.value && a.jobId == id)
      ensures !(applications.Some? && applications.value != []) ==> appliedJobs == old(appliedJobs)
      ensures searchTerm == old(searchTerm) && locationFilter == old(locationFilter) && activeTab == old(activeTab)
    {
      if applications.Some? && |applications.value| > 0 {
        appliedJobs := JobIds(applications.value);
      }
    }

    /** `appliedJobs.includes(jobId)`: repeated ids make no difference. */
    predicate IsApplied(jobId: string)
      reads this
    {
      jobId in appliedJobs
    }

    /** The jobs the page lists for its current inputs. */
    function Listed(allJobs: Option<seq<Job>>, now: int): (r: seq<Job>)
      reads this
      ensures r == FilterJobs(allJobs, searchTerm, locationFilter, activeTab, now)
      ensures forall job :: job in r <==>
        allJobs.Some? && job in allJobs.value && IsListed(job, searchTerm, locationFilter, activeTab, now)
    {
      FilterJobs(allJobs, searchTerm, locationFilter, activeTab, now)
    }

    /** "Apply Now" is offered only for a job the user has not applied to and that has not closed. */
    predicate ShowsApplyButton(job: Job, now: int)
      reads this
    {
      !IsApplied(job.id) && !IsExpired(job.closingDate, now)
    }

    /** Once a job is applied to, or once it has closed, its button stays hidden for every later instant. */
    lemma ApplyButtonStaysHidden(job: Job, now: int, later: int)
      requires now <= later && !ShowsApplyButton(job, now)
      ensures !ShowsApplyButton(job, later)
    {
      ExpiryFacts(job.closingDate, now, later);
    }
  }

  /** An application by u1 for j1 marks exactly j1; an empty list for u2 marks nothing. */
  method OverlayExample()
  {
    var page := new JobsPage();
    page.UpdateApplications(Some([Application("u1", "j1")]));
    assert Application("u1", "j1") in [Application("u1", "j1")];
    assert page.IsApplied("j1") && !page.IsApplied("j2");
    var other := new JobsPage();
    other.UpdateApplications(Some([]));
    assert !other.IsApplied("j1");
  }
}
