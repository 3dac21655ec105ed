/**
 * The extraction session of the main page (src/pages/Index.tsx): the
 * sequential extraction loop that advances the progress overlay and collects
 * the generated records, and the handlers that start a batch, publish it
 * after the grace step, and close the overlay.
 *
 * The delays between steps are plain sequencing. The random choices of each
 * record are a `Draw` per URL, supplied by the caller.
 */
module IndexPage {
  import opened Strings
  import opened Types
  import opened DummyData
  import opened UrlPattern
  import InputSection

  // ---------------------------------------------------------------------------
  // Progress

  /** `setProgress(prev => ({ ...prev, currentProfile: name }))` */
  function WithCurrent(p: ScrapingProgress, name: string): ScrapingProgress {
    p.(currentProfile := name)
  }

  /** `setProgress(prev => ({ ...prev, profilesCompleted: c }))` */
  function WithCompleted(p: ScrapingProgress, c: int): ScrapingProgress {
    p.(profilesCompleted := c)
  }

  /** The progress a batch of `total` URLs starts from. */
  function ResetProgress(total: nat): ScrapingProgress {
    ScrapingProgress("", 0, total)
  }

  /** Every progress value the overlay is given while the first `n` profiles,
      with the given names, are processed in order: the reset, then for each
      profile its name and then its completed count. */
  function ProgressTrace(names: seq<string>, n: nat, total: nat): (t: seq<ScrapingProgress>)
    requires n <= |names|
    ensures |t| == 1 + 2 * n
  {
    if n == 0 then [ResetProgress(total)]
    else
      var prev := ProgressTrace(names, n - 1, total);
      var shown := WithCurrent(prev[|prev| - 1], names[n - 1]);
      prev + [shown, WithCompleted(shown, n)]
  }

  /** The trace entry by entry: the reset first; for the profile at `j`, the
      entry that shows its name with `j` profiles completed, then the entry
      that counts it completed. */
  lemma {:induction false} ProgressTraceAt(names: seq<string>, n: nat, total: nat)
    requires n <= |names|
    ensures ProgressTrace(names, n, total)[0] == ResetProgress(total)
    ensures forall j :: 0 <= j < n ==>
      && ProgressTrace(names, n, total)[2 * j + 1] == ScrapingProgress(names[j], j, total)
      && ProgressTrace(names, n, total)[2 * j + 2] == ScrapingProgress(names[j], j + 1, total)
  {
    if n != 0 {
      ProgressTraceAt(names, n - 1, total);
      var prev := ProgressTrace(names, n - 1, total);
      assert prev[|prev| - 1].profilesCompleted == n - 1 && prev[|prev| - 1].totalProfiles == total by {
        if n > 1 {
          assert prev[2 * (n - 2) + 2] == ScrapingProgress(names[n - 2], n - 1, total);
        }
      }
      var t := ProgressTrace(names, n, total);
      forall j | 0 <= j < n
        ensures t[2 * j + 1] == ScrapingProgress(names[j], j, total)
        ensures t[2 * j + 2] == ScrapingProgress(names[j], j + 1, total)
      {
        if j < n - 1 {
          assert t[2 * j + 1] == prev[2 * j + 1] && t[2 * j + 2] == prev[2 * j + 2];
        }
      }
    }
  }

  /** Throughout a batch the total stays the batch size, the completed count
      lies between 0 and the total and never decreases, and it ends at the
      number of profiles processed. */
  lemma ProgressTraceBounds(names: seq<string>, n: nat, total: nat)
    requires n <= |names| && n <= total
    ensures forall a :: 0 <= a < |ProgressTrace(names, n, total)| ==>
      ProgressTrace(names, n, total)[a].totalProfiles == total
    ensures forall a :: 0 <= a < |ProgressTrace(names, n, total)| ==>
      0 <= ProgressTrace(names, n, total)[a].profilesCompleted <= total
    ensures forall a, b :: 0 <= a <= b < |ProgressTrace(names, n, total)| ==>
      ProgressTrace(names, n, total)[a].profilesCompleted <= ProgressTrace(names, n, total)[b].profilesCompleted
    ensures ProgressTrace(names, n, total)[2 * n].profilesCompleted == n
  {
    var t := ProgressTrace(names, n, total);
    ProgressTraceAt(names, n, total);
    // Entry `a` counts `a / 2` profiles completed.
    forall a | 0 <= a < |t| ensures t[a].profilesCompleted == a / 2 && t[a].totalProfiles == total {
      if a > 0 {
        var j := (a - 1) / 2;
        if a == 2 * j + 1 {
          assert a / 2 == j;
          assert t[2 * j + 1] == ScrapingProgress(names[j], j, total);
        } else {
          assert a == 2 * j + 2 && a / 2 == j + 1;
          assert t[2 * j + 2] == ScrapingProgress(names[j], j + 1, total);
        }
      }
    }
  }

  // ---------------------------------------------------------------------------
  // The records of a batch

  /** The name shown for a URL; only used for URLs that have one. */
  function NameOf(url: string): string {
    match ProfileName(url)
    case Some(name) => name
    case None => ""
  }

  /** Every URL has a segment after `/in/`, so none makes the loop throw. */
  predicate AllNamed(urls: seq<string>) {
    forall k :: 0 <= k < |urls| ==> ProfileName(urls[k]).Some?
  }

  /** The names shown for the URLs, in order. */
  function NamesOf(urls: seq<string>): (r: seq<string>)
    ensures |r| == |urls| && forall k :: 0 <= k < |urls| ==> r[k] == NameOf(urls[k])
  {
    seq(|urls|, k requires 0 <= k < |urls| => NameOf(urls[k]))
  }

  /** The draws fit a pool of `n` skills. */
  predicate DrawsFit(draws: seq<Draw>, n: nat) {
    forall k :: 0 <= k < |draws| ==> ValidDraw(draws[k], n)
  }

  /** Every draw's sort keeps each skill of a pool of `n` exactly once. */
  predicate DrawsShuffle(draws: seq<Draw>, n: nat) {
    forall k :: 0 <= k < |draws| ==> Shuffles(draws[k], n)
  }

  /** The skills pool after the first `k` `generateProfileData` calls, one
      per draw, in order. */
  function PoolAfterDraws(draws: seq<Draw>, k: nat, pool: seq<string>): (r: seq<string>)
    requires k <= |draws| && DrawsFit(draws, |pool|)
    ensures |r| == |pool|
  {
    if k == 0 then pool
    else Permute(PoolAfterDraws(draws, k - 1, pool), draws[k - 1].order)
  }

  /** The record the call for the URL at `k` returns: generated with the draw
      at `k` and the pool the calls before it left. */
  function RecordAt(urls: seq<string>, draws: seq<Draw>, pool: seq<string>, k: nat): LinkedInProfile
    requires |draws| == |urls| && DrawsFit(draws, |pool|) && k < |urls|
  {
    ProfileRecord(urls[k], NameOf(urls[k]), draws[k], PoolAfterDraws(draws, k, pool))
  }

  /** The records the loop collects for `urls`, in order. */
  function Extraction(urls: seq<string>, draws: seq<Draw>, pool: seq<string>): seq<LinkedInProfile>
    requires |draws| == |urls| && DrawsFit(draws, |pool|)
  {
    seq(|urls|, k requires 0 <= k < |urls| => RecordAt(urls, draws, pool, k))
  }

  /** What a record generated from `url` with draw `d` carries, when the pool
      is an arrangement of `table`: the URL verbatim, the name shown for it,
      the id of the draw, the avatar keyed by the name, a title from the title
      table, and three distinct skills from `table`. */
  predicate RecordOf(r: LinkedInProfile, url: string, d: Draw, table: seq<string>) {
    && r.url == url
    && r.name == NameOf(url)
    && r.id == d.id
    && r.avatar == Avatar(r.name)
    && r.title in JobTitles
    && |r.skills| == SkillsPerProfile
    && Distinct(r.skills)
    && (forall s :: 0 <= s < |r.skills| ==> r.skills[s] in table)
  }

  /** The pool the calls leave behind is an arrangement of the pool they
      started from. */
  lemma {:induction false} PoolAfterDrawsPermutes(draws: seq<Draw>, k: nat, pool: seq<string>)
    requires k <= |draws| && DrawsFit(draws, |pool|) && DrawsShuffle(draws, |pool|)
    ensures multiset(PoolAfterDraws(draws, k, pool)) == multiset(pool)
  {
    if k != 0 {
      var before := PoolAfterDraws(draws, k - 1, pool);
      PoolAfterDrawsPermutes(draws, k - 1, pool);
      assert ValidDraw(draws[k - 1], |before|) && Shuffles(draws[k - 1], |before|);
      PermuteIsPermutation(before, draws[k - 1].order);
    }
  }

  /** A record made for a URL carries what `RecordOf` lists. */
  lemma ProfileRecordOf(url: string, d: Draw, pool: seq<string>, table: seq<string>)
    requires ValidDraw(d, |pool|) && Shuffles(d, |pool|)
    requires multiset(pool) == multiset(table) && Distinct(table) && |table| >= SkillsPerProfile
    ensures RecordOf(ProfileRecord(url, NameOf(url), d, pool), url, d, table)
  {
    TitleInTable(d.titleIndex);
    RecordSkills(d, pool, table);
  }

  /** Every collected record is generated from the URL at the same position,
      so order is kept, and carries what `RecordOf` lists; the pool stays an
      arrangement of the table. */
  lemma ExtractionFacts(urls: seq<string>, draws: seq<Draw>, pool: seq<string>, table: seq<string>)
    requires |draws| == |urls| && DrawsFit(draws, |pool|) && DrawsShuffle(draws, |pool|)
    requires multiset(pool) == multiset(table) && Distinct(table) && |table| >= SkillsPerProfile
    ensures |Extraction(urls, draws, pool)| == |urls|
    ensures multiset(PoolAfterDraws(draws, |draws|, pool)) == multiset(table)
    ensures forall k :: 0 <= k < |urls| ==>
      RecordOf(Extraction(urls, draws, pool)[k], urls[k], draws[k], table)
  {
    PoolAfterDrawsPermutes(draws, |draws|, pool);
    forall k | 0 <= k < |urls|
      ensures RecordOf(Extraction(urls, draws, pool)[k], urls[k], draws[k], table)
    {
      PoolAfterDrawsPermutes(draws, k, pool);
      ProfileRecordOf(urls[k], draws[k], PoolAfterDraws(draws, k, pool), table);
    }
  }

  /** The first URL that has no segment after `/in/`, where the loop throws. */
  function FirstUnnamed(urls: seq<string>): (r: Option<nat>)
    ensures r.None? <==> AllNamed(urls)
    ensures r.Some? ==> r.value < |urls| && ProfileName(urls[r.value]).None?
    ensures r.Some? ==> forall k :: 0 <= k < r.value ==> ProfileName(urls[k]).Some?
  {
    if urls == [] then None
    else if ProfileName(urls[0]).None? then Some(0)
    else
      match FirstUnnamed(urls[1..])
      case None => None
      case Some(i) =>
        assert forall k :: 1 <= k < |urls| ==> urls[k] == urls[1..][k - 1];
        Some(i + 1)
  }

  /** The number of URLs the loop processes before it ends or throws. */
  function Processed(urls: seq<string>): (n: nat)
    ensures n <= |urls|
  {
    match FirstUnnamed(urls)
    case None => |urls|
    case Some(i) => i
  }

  /** A named URL at `i`, reached before the loop stops, is not where it
      stops. */
  lemma ProcessedPast(urls: seq<string>, i: nat)
    requires i < |urls| && ProfileName(urls[i]).Some? && i <= Processed(urls)
    ensures i + 1 <= Processed(urls)
  {
  }

  /** A URL without a name, reached before the loop stops, is where it stops:
      the first such URL. */
  lemma ProcessedAt(urls: seq<string>, i: nat)
    requires i < |urls| && ProfileName(urls[i]).None? && i <= Processed(urls)
    ensures Processed(urls) == i && FirstUnnamed(urls) == Some(i)
  {
  }

  /** When every URL is processed none is unnamed. */
  lemma ProcessedAll(urls: seq<string>)
    requires Processed(urls) == |urls|
    ensures FirstUnnamed(urls).None?
  {
  }

  /** The call for a named URL at `i`, made on the pool the calls before it
      left, returns the record at `i` and leaves the pool of `i + 1` calls. */
  lemma CallStep(urls: seq<string>, draws: seq<Draw>, pool: seq<string>, i: nat)
    requires |draws| == |urls| && DrawsFit(draws, |pool|) && i < |urls|
    requires ProfileName(urls[i]).Some?
    ensures ValidDraw(draws[i], |PoolAfterDraws(draws, i, pool)|)
    ensures NameOf(urls[i]) == ProfileName(urls[i]).value
    ensures GeneratedProfile(urls[i], draws[i], PoolAfterDraws(draws, i, pool)) == Some(RecordAt(urls, draws, pool, i))
    ensures PoolAfter(urls[i], draws[i], PoolAfterDraws(draws, i, pool)) == PoolAfterDraws(draws, i + 1, pool)
  {
  }

  /** One more element of a prefix. */
  lemma PrefixStep<T>(s: seq<T>, i: nat)
    requires i < |s|
    ensures s[..i + 1] == s[..i] + [s[i]]
  {
  }

  /** Processing the URL at `i` appends its two progress values to the
      trace. */
  lemma TraceStep(names: seq<string>, i: nat, total: nat)
    requires i < |names|
    ensures var shown := WithCurrent(ProgressTrace(names, i, total)[2 * i], names[i]);
      ProgressTrace(names, i + 1, total) == ProgressTrace(names, i, total) + [shown, WithCompleted(shown, i + 1)]
  {
  }

  /** The state of the loop in `simulateExtraction(urls)` after `i` passes,
      started with the pool at `pool0` and the progress log at `log0`: the
      records of the first `i` URLs collected, the pool reordered once per
      record, and the overlay given the trace of those URLs. */
  ghost predicate LoopState(urls: seq<string>, draws: seq<Draw>, pool0: seq<string>, log0: seq<ScrapingProgress>,
                            i: nat, profiles: seq<LinkedInProfile>,
                            pool: seq<string>, progress: ScrapingProgress, log: seq<ScrapingProgress>)
  {
    && |draws| == |urls| && |pool0| == |pool| && DrawsFit(draws, |pool0|) && i <= |urls|
    && profiles == Extraction(urls, draws, pool0)[..i]
    && pool == PoolAfterDraws(draws, i, pool0)
    && log == log0 + ProgressTrace(NamesOf(urls), i, |urls|)
    && progress == ProgressTrace(NamesOf(urls), i, |urls|)[2 * i]
  }

  /** A pass for a named URL moves the loop state from `i` to `i + 1`: the
      record at `i` is appended, the pool is the one `i + 1` calls leave, and
      the overlay is given the name and then the completed count. */
  lemma LoopStep(urls: seq<string>, draws: seq<Draw>, pool0: seq<string>, log0: seq<ScrapingProgress>,
                 i: nat, profiles: seq<LinkedInProfile>,
                 pool: seq<string>, progress: ScrapingProgress, log: seq<ScrapingProgress>)
    requires LoopState(urls, draws, pool0, log0, i, profiles, pool, progress, log)
    requires i < |urls| && ProfileName(urls[i]).Some?
    ensures var shown := WithCurrent(progress, ProfileName(urls[i]).value);
      var counted := WithCompleted(shown, i + 1);
      LoopState(urls, draws, pool0, log0, i + 1, profiles + [RecordAt(urls, draws, pool0, i)],
                PoolAfterDraws(draws, i + 1, pool0), counted, log + [shown, counted])
  {
    CallStep(urls, draws, pool0, i);
    TraceStep(NamesOf(urls), i, |urls|);
    PrefixStep(Extraction(urls, draws, pool0), i);
  }

  // ---------------------------------------------------------------------------
  // The session

  /** A fresh array holding `s`. */
  method NewArray<T>(s: seq<T>) returns (a: array<T>)
    ensures fresh(a) && a[..] == s
  {
    a := new T[|s|](i requires 0 <= i < |s| => s[i]);
  }

  /** The page state of one browser session. The skills pool is the
      module-level array that every `generateProfileData` call reorders; it
      lives as long as the page. `pending` holds the records of a batch whose
      grace step has not run yet. */
  class Session {
    var isModalOpen: bool
    var isLoading: bool
    var extractedProfiles: seq<LinkedInProfile>
    var progress: ScrapingProgress
    var pending: Option<seq<LinkedInProfile>>
    const pool: array<string>
    /** What the pool held when the page loaded. */
    ghost const table: seq<string>
    /** Every progress value the overlay has been given, oldest first. */
    ghost var progressLog: seq<ScrapingProgress>

    /** The pool is always an arrangement of the skills table, and a batch
        waits for its grace step only while loading. */
    ghost predicate Valid()
      reads this, pool
    {
      && multiset(pool[..]) == multiset(table)
      && Distinct(table) && |table| >= SkillsPerProfile
      && (pending.Some? ==> isLoading)
    }

    /** The page as it loads, with the skills pool holding `skills`. */
    constructor(skills: seq<string>)
      requires Distinct(skills) && |skills| >= SkillsPerProfile
      ensures Valid() && fresh(pool)
      ensures !isModalOpen && !isLoading && extractedProfiles == [] && pending.None?
      ensures progress == ResetProgress(0) && progressLog == []
      ensures pool[..] == skills && table == skills
    {
      isModalOpen := false;
      isLoading := false;
      extractedProfiles := [];
      progress := ResetProgress(0);
      pending := None;
      var a := NewArray(skills);
      pool := a;
      table := skills;
      progressLog := [];
    }

    /** The loop state of `simulateExtraction(urls)` holds in this session. */
    ghost predicate Reached(urls: seq<string>, draws: seq<Draw>, pool0: seq<string>, log0: seq<ScrapingProgress>,
                            i: nat, profiles: seq<LinkedInProfile>)
      reads this, pool
    {
      LoopState(urls, draws, pool0, log0, i, profiles, pool[..], progress, progressLog)
    }

    /** One pass of the loop in `simulateExtraction`, for the URL at `i`: the
        name is derived first, which throws (`None`) for a URL without a
        segment after `/in/`; otherwise the overlay shows the name, the record
        is generated from the pool the earlier calls left and appended, and
        the overlay counts it completed. */
    method ExtractOne(urls: seq<string>, draws: seq<Draw>, i: nat, profiles: seq<LinkedInProfile>,
                      ghost pool0: seq<string>, ghost log0: seq<ScrapingProgress>)
      returns (next: Option<seq<LinkedInProfile>>)
      requires Reached(urls, draws, pool0, log0, i, profiles) && i < |urls|
      modifies this, pool
      ensures isModalOpen == old(isModalOpen) && isLoading == old(isLoading)
      ensures extractedProfiles == old(extractedProfiles) && pending == old(pending)
      ensures next.None? <==> ProfileName(urls[i]).None?
      ensures next.None? ==> Reached(urls, draws, pool0, log0, i, profiles)
      ensures next.Some? ==> Reached(urls, draws, pool0, log0, i + 1, next.value)
    {
      var url := urls[i];
      var name := ProfileName(url);
      if name.None? {
        return None;
      }
      CallStep(urls, draws, pool0, i);
      LoopStep(urls, draws, pool0, log0, i, profiles, pool[..], progress, progressLog);
      progress := WithCurrent(progress, name.value);
      progressLog := progressLog + [progress];
      var record := GenerateProfileData(pool, url, draws[i]);
      progress := WithCompleted(progress, i + 1);
      progressLog := progressLog + [progress];
      next := Some(profiles + [record.value]);
    }

    /** `simulateExtraction(urls)`: the records, or `None` where a URL without a
        segment after `/in/` makes the loop throw. The progress overlay is
        given the trace of the URLs processed, and the pool is reordered once
        per record. */
    method SimulateExtraction(urls: seq<string>, draws: seq<Draw>) returns (result: Option<seq<LinkedInProfile>>)
      requires |draws| == |urls| && DrawsFit(draws, pool.Length)
      modifies this, pool
      ensures isModalOpen == old(isModalOpen) && isLoading == old(isLoading)
      ensures extractedProfiles == old(extractedProfiles) && pending == old(pending)
      ensures var done := Processed(urls);
        && progressLog == old(progressLog) + ProgressTrace(NamesOf(urls), done, |urls|)
        && progress == ProgressTrace(NamesOf(urls), done, |urls|)[2 * done]
        && pool[..] == PoolAfterDraws(draws, done, old(pool[..]))
      ensures FirstUnnamed(urls).None? ==> result == Some(Extraction(urls, draws, old(pool[..])))
      ensures FirstUnnamed(urls).Some? ==> result == None
    {
      ghost var pool0 := pool[..];
      ghost var log0 := progressLog;
      var profiles: seq<LinkedInProfile> := [];
      progress := ResetProgress(|urls|);
      progressLog := progressLog + [progress];
      var i := 0;
      while i < |urls|
        invariant i <= Processed(urls)
        invariant Reached(urls, draws, pool0, log0, i, profiles)
        invariant isModalOpen == old(isModalOpen) && isLoading == old(isLoading)
        invariant extractedProfiles == old(extractedProfiles) && pending == old(pending)
      {
        var next := ExtractOne(urls, draws, i, profiles, pool0, log0);
        if next.None? {
          ProcessedAt(urls, i);
          return None;
        }
        ProcessedPast(urls, i);
        profiles := next.value;
        i := i + 1;
      }
      ProcessedAll(urls);
      assert |Extraction(urls, draws, pool0)| == i;
      assert profiles == Extraction(urls, draws, pool0);
      assert pool0 == old(pool[..]);
      result := Some(profiles);
    }

    /** The first three statements of `handleStartScraping`. */
    method BeginBatch()
      requires Valid() && !isLoading
      modifies this
      ensures Valid()
      ensures isLoading && isModalOpen && extractedProfiles == []
      ensures progress == old(progress) && pending == old(pending) && progressLog == old(progressLog)
    {
      isLoading := true;
      isModalOpen := true;
      extractedProfiles := [];
    }

    /** `handleStartScraping(urls)` up to the scheduled grace step: loading,
        overlay open and the shown records cleared before any URL is
        processed; on success the records wait for the grace step, on a throw
        the overlay closes and loading ends. The start button is disabled
        while loading (`InputSection.InputPanel.StartDisabled`), so a batch
        never starts during another. */
    method HandleStartScraping(urls: seq<string>, draws: seq<Draw>) returns (ok: bool)
      requires Valid() && !isLoading
      requires |draws| == |urls| && DrawsFit(draws, pool.Length) && DrawsShuffle(draws, pool.Length)
      modifies this, pool
      ensures Valid()
      ensures extractedProfiles == []
      ensures ok <==> AllNamed(urls)
      ensures ok ==> isLoading && isModalOpen
      ensures ok ==> pending == Some(Extraction(urls, draws, old(pool[..])))
      ensures !ok ==> !isLoading && !isModalOpen && pending == old(pending)
      ensures var done := Processed(urls);
        && progressLog == old(progressLog) + ProgressTrace(NamesOf(urls), done, |urls|)
        && progress == ProgressTrace(NamesOf(urls), done, |urls|)[2 * done]
        && pool[..] == PoolAfterDraws(draws, done, old(pool[..]))
    {
      BeginBatch();
      ghost var pool0 := pool[..];
      var profiles := SimulateExtraction(urls, draws);
      PoolAfterDrawsPermutes(draws, Processed(urls), pool0);
      match profiles
      case None =>
        isModalOpen := false;
        isLoading := false;
        ok := false;
      case Some(records) =>
        pending := Some(records);
        ok := true;
    }

    /** The grace step after a successful batch: the overlay closes, the
        batch's records are published in place of anything shown before, and
        loading ends. */
    method Finish()
      requires Valid() && pending.Some?
      modifies this
      ensures Valid()
      ensures !isModalOpen && !isLoading && pending.None?
      ensures extractedProfiles == old(pending).value
      ensures progress == old(progress) && progressLog == old(progressLog)
    {
      isModalOpen := false;
      extractedProfiles := pending.value;
      isLoading := false;
      pending := None;
    }

    /** `handleCloseModal`: the overlay closes only when no batch is loading;
        otherwise nothing changes. */
    method HandleCloseModal()
      requires Valid()
      modifies this
      ensures Valid()
      ensures isModalOpen == (old(isModalOpen) && old(isLoading))
      ensures isLoading == old(isLoading) && extractedProfiles == old(extractedProfiles)
      ensures pending == old(pending) && progress == old(progress) && progressLog == old(progressLog)
    {
      if !isLoading {
        isModalOpen := false;
      }
    }
  }

  /** A whole batch on a freshly loaded page whose skills pool holds
      `skills`: start, then the grace step. The page ends showing exactly the
      batch's records, one per URL in order (see `ExtractionFacts` for what
      each carries). */
  method RunBatch(skills: seq<string>, urls: seq<string>, draws: seq<Draw>) returns (shown: seq<LinkedInProfile>)
    requires Distinct(skills) && |skills| >= SkillsPerProfile
    requires |draws| == |urls| && DrawsFit(draws, |skills|) && DrawsShuffle(draws, |skills|) && AllNamed(urls)
    ensures shown == Extraction(urls, draws, skills)
  {
    var page := new Session(skills);
    var ok := page.HandleStartScraping(urls, draws);
    page.Finish();
    shown := page.extractedProfiles;
  }

  /** A batch the input panel starts never takes the throwing path: every
      URL that passes the pattern has a segment after `/in/`. */
  lemma StartedAreNamed(text: string)
    requires InputSection.StartAttempt(text).Start?
    ensures AllNamed(InputSection.StartAttempt(text).batch)
  {
    InputSection.StartIff(text);
    var urls := InputSection.StartAttempt(text).batch;
    forall k | 0 <= k < |urls| ensures ProfileName(urls[k]).Some? {
      MatchesIff(urls[k]);
      var p: UrlParts :| IsHandle(p.handle) && Format(p) == urls[k];
      NameOfProfileUrl(p);
    }
  }

  /** Loading the template, starting, and letting the grace step run on a
      freshly loaded page shows ten records, one per template URL in order,
      each carrying what `RecordOf` lists for the skills table. */
  method TemplateBatch(draws: seq<Draw>) returns (shown: seq<LinkedInProfile>)
    requires |draws| == |TemplateUrls|
    requires DrawsFit(draws, |SkillsPool|) && DrawsShuffle(draws, |SkillsPool|)
    ensures shown == Extraction(TemplateUrls, draws, SkillsPool) && |shown| == 10
    ensures forall k :: 0 <= k < |shown| ==> RecordOf(shown[k], TemplateUrls[k], draws[k], SkillsPool)
  {
    SkillsPoolDistinct();
    TitlesDistinct();
    InputSection.TemplateStarts();
    StartedAreNamed(InputSection.TemplateText());
    shown := RunBatch(SkillsPool, TemplateUrls, draws);
    ExtractionFacts(TemplateUrls, draws, SkillsPool, SkillsPool);
  }
}
