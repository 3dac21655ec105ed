/**
 * The URL input panel (src/components/InputSection.tsx): cleaning and
 * validating the textarea text, the gate in front of the start callback, the
 * template loader and the rule that disables the start button.
 */
module InputSection {
  import opened Strings
  import opened Arrays
  import opened UrlPattern
  import DummyData

  /** Most profiles one batch may hold. */
  const MaxProfiles: nat := 20

  /** Most invalid lines the error message names. */
  const ShownInvalid: nat := 3

  const InvalidHeader: string := "Invalid LinkedIn URLs detected: "
  const EmptyMessage: string := "Please enter at least one LinkedIn URL"
  const TooManyMessage: string := "Maximum 20 profiles allowed per scraping session"

  predicate IsNonEmpty(s: string) {
    |s| > 0
  }

  /** `!linkedInRegex.test(url)` */
  predicate Fails(url: string) {
    !Matches(url)
  }

  /** The lines of the text, each trimmed, empty ones dropped. */
  function CleanLines(text: string): seq<string> {
    Filter(Map(Split(text, "\n"), Trim), IsNonEmpty)
  }

  /** Every cleaned line is non-empty and has no white space at either end. */
  lemma CleanLinesTrimmed(text: string)
    ensures forall k :: 0 <= k < |CleanLines(text)| ==>
      CleanLines(text)[k] != [] && Trim(CleanLines(text)[k]) == CleanLines(text)[k]
  {
    var lines := Split(text, "\n");
    var trimmed := Map(lines, Trim);
    forall k | 0 <= k < |trimmed| ensures Trim(trimmed[k]) == trimmed[k] {
      TrimIdempotent(lines[k]);
    }
    TrimmedLines(trimmed);
  }

  lemma TrimmedLines(trimmed: seq<string>)
    requires forall k :: 0 <= k < |trimmed| ==> Trim(trimmed[k]) == trimmed[k]
    ensures forall k :: 0 <= k < |Filter(trimmed, IsNonEmpty)| ==>
      Filter(trimmed, IsNonEmpty)[k] != [] && Trim(Filter(trimmed, IsNonEmpty)[k]) == Filter(trimmed, IsNonEmpty)[k]
  {
    var r := Filter(trimmed, IsNonEmpty);
    forall k | 0 <= k < |r| ensures r[k] != [] && Trim(r[k]) == r[k] {
      assert IsNonEmpty(r[k]) && r[k] in trimmed;
    }
  }

  /** The lines that fail the pattern, in their order. */
  function InvalidLines(lines: seq<string>): seq<string> {
    Filter(lines, Fails)
  }

  /** The text of the error `validateUrls` throws for the invalid lines `inv`. */
  function InvalidMessage(inv: seq<string>): string {
    InvalidHeader + Join(Prefix(inv, ShownInvalid), ", ") + (if |inv| > ShownInvalid then "..." else "")
  }

  /** What `validateUrls` does: return the cleaned lines, or throw. */
  datatype Validation = Valid(urls: seq<string>) | Invalid(message: string)

  /** `validateUrls(urlString)` */
  function ValidateUrls(text: string): (r: Validation)
    ensures r.Valid? <==> forall k :: 0 <= k < |CleanLines(text)| ==> Matches(CleanLines(text)[k])
    ensures r.Valid? ==> r.urls == CleanLines(text)
  {
    var lines := CleanLines(text);
    var invalid := InvalidLines(lines);
    FilterNone(lines, Fails);
    if |invalid| > 0 then Invalid(InvalidMessage(invalid)) else Valid(lines)
  }

  /** What one press of the start button leads to: the callback receives the
      batch, or the error text is set. */
  datatype StartOutcome = Start(batch: seq<string>) | Rejected(error: string)

  /** The decision `handleStartScraping` makes for the text in the textarea. */
  function StartAttempt(text: string): StartOutcome {
    match ValidateUrls(text)
    case Invalid(message) => Rejected(message)
    case Valid(urls) =>
      if |urls| == 0 then Rejected(EmptyMessage)
      else if |urls| > MaxProfiles then Rejected(TooManyMessage)
      else Start(urls)
  }

  // ---------------------------------------------------------------------------
  // Properties

  /** Cleaning keeps every line whose trimmed text is non-empty and nothing
      else, in order: the lines of `a` then those of `b` for a text made of
      the lines of `a` and then those of `b`. */
  lemma CleanLinesOfJoin(a: seq<string>, b: seq<string>)
    ensures Filter(Map(a + b, Trim), IsNonEmpty) ==
      Filter(Map(a, Trim), IsNonEmpty) + Filter(Map(b, Trim), IsNonEmpty)
  {
    MapAppend(a, b, Trim);
    FilterAppend(Map(a, Trim), Map(b, Trim), IsNonEmpty);
  }

  /** The error message names the first invalid lines, at most three of them,
      and ends in `...` when more were found; with three or fewer it lists
      them all and nothing more. */
  lemma InvalidMessageShape(inv: seq<string>)
    requires |inv| > 0
    ensures HasPrefix(InvalidMessage(inv), InvalidHeader)
    ensures forall k :: 0 <= k < |inv| && k < ShownInvalid ==> Contains(InvalidMessage(inv), inv[k])
    ensures |inv| > ShownInvalid ==> InvalidMessage(inv)[|InvalidMessage(inv)| - 3..] == "..."
    ensures |inv| <= ShownInvalid ==> InvalidMessage(inv) == InvalidHeader + Join(inv, ", ")
    ensures |inv| > ShownInvalid ==> InvalidMessage(inv) == InvalidHeader + Join(inv[..ShownInvalid], ", ") + "..."
  {
    var m := InvalidMessage(inv);
    var shown := Prefix(inv, ShownInvalid);
    var listed := Join(shown, ", ");
    var tail := if |inv| > ShownInvalid then "..." else "";
    assert m == InvalidHeader + listed + tail;
    assert m[..|InvalidHeader|] == InvalidHeader;
    forall k | 0 <= k < |inv| && k < ShownInvalid
      ensures Contains(m, inv[k])
    {
      assert shown[k] == inv[k];
      var j := JoinOffset(shown, ", ", k);
      OccursInMiddle(InvalidHeader, listed, tail, inv[k], j);
    }
  }

  /** The callback is called exactly when every cleaned line passes the
      pattern and there are between 1 and 20 of them, and it then receives
      the cleaned lines. */
  lemma StartIff(text: string)
    ensures StartAttempt(text).Start? <==>
      && (forall k :: 0 <= k < |CleanLines(text)| ==> Matches(CleanLines(text)[k]))
      && 1 <= |CleanLines(text)| <= MaxProfiles
    ensures StartAttempt(text).Start? ==> StartAttempt(text).batch == CleanLines(text)
  {
  }

  /** A line that fails the pattern is reported before the number of lines is
      looked at: the error names the invalid lines, whatever their count. */
  lemma InvalidFirst(text: string, k: nat)
    requires k < |CleanLines(text)| && !Matches(CleanLines(text)[k])
    ensures StartAttempt(text) == Rejected(InvalidMessage(InvalidLines(CleanLines(text))))
    ensures StartAttempt(text).error != EmptyMessage
    ensures StartAttempt(text).error != TooManyMessage
  {
    var lines := CleanLines(text);
    assert Fails(lines[k]);
    assert lines[k] in InvalidLines(lines);
    InvalidMessageDiffers(InvalidLines(lines));
  }

  /** The invalid-lines message is neither of the count messages. */
  lemma InvalidMessageDiffers(inv: seq<string>)
    ensures InvalidMessage(inv) != EmptyMessage && InvalidMessage(inv) != TooManyMessage
  {
    var m := InvalidMessage(inv);
    assert m[30] == InvalidHeader[30] == ':';
    assert EmptyMessage[30] == 'e';
    assert TooManyMessage[30] == 'r';
  }

  /** With every line valid, an empty batch and a batch of more than 20 are
      rejected with their own messages. */
  lemma CountRejections(text: string)
    requires forall k :: 0 <= k < |CleanLines(text)| ==> Matches(CleanLines(text)[k])
    ensures |CleanLines(text)| == 0 ==> StartAttempt(text) == Rejected(EmptyMessage)
    ensures |CleanLines(text)| > MaxProfiles ==> StartAttempt(text) == Rejected(TooManyMessage)
  {
  }

  /** The start button is enabled (`urls.trim()` is non-empty) exactly when the
      text holds a non-empty line after trimming, so a press of the enabled
      button never meets the empty-batch error. */
  lemma EnabledIffSomeLine(text: string)
    ensures Trim(text) != [] <==> |CleanLines(text)| > 0
  {
    if |CleanLines(text)| == 0 {
      NoLinesAllWhiteSpace(text);
    } else {
      SomeLineNotWhiteSpace(text);
    }
  }

  lemma NoLinesAllWhiteSpace(text: string)
    requires |CleanLines(text)| == 0
    ensures AllWhiteSpace(text)
  {
    var lines := Split(text, "\n");
    BlankJoin(lines);
    JoinSplit(text, "\n");
  }

  /** Lines that all trim to nothing join into white space. */
  lemma BlankJoin(lines: seq<string>)
    requires Filter(Map(lines, Trim), IsNonEmpty) == []
    ensures AllWhiteSpace(Join(lines, "\n"))
  {
    FilterNone(Map(lines, Trim), IsNonEmpty);
    BlankLines(lines);
    JoinAllWhiteSpace(lines, "\n");
  }

  /** Lines that all trim to nothing are all white space. */
  lemma BlankLines(lines: seq<string>)
    requires forall k :: 0 <= k < |lines| ==> !IsNonEmpty(Map(lines, Trim)[k])
    ensures forall k :: 0 <= k < |lines| ==> AllWhiteSpace(lines[k])
  {
    forall k | 0 <= k < |lines| ensures AllWhiteSpace(lines[k]) {
      assert !IsNonEmpty(Map(lines, Trim)[k]);
    }
  }

  lemma SomeLineNotWhiteSpace(text: string)
    requires |CleanLines(text)| > 0
    ensures !AllWhiteSpace(text)
  {
    var lines := Split(text, "\n");
    NonBlankJoin(lines);
    JoinSplit(text, "\n");
  }

  /** Lines of which one trims to something join into more than white space. */
  lemma NonBlankJoin(lines: seq<string>)
    requires Filter(Map(lines, Trim), IsNonEmpty) != []
    ensures !AllWhiteSpace(Join(lines, "\n"))
  {
    FilterNone(Map(lines, Trim), IsNonEmpty);
    var k :| 0 <= k < |lines| && IsNonEmpty(Map(lines, Trim)[k]);
    assert !AllWhiteSpace(lines[k]);
    JoinNotWhiteSpace(lines, "\n", k);
  }

  // ---------------------------------------------------------------------------
  // The template

  /** `dummyLinkedInUrls.join('\n')` */
  function TemplateText(): string {
    Join(DummyData.TemplateUrls, "\n")
  }

  /** A URL made of the profile prefix and a handle passes the pattern. */
  lemma ProfileLineMatches(h: string)
    requires IsHandle(h)
    ensures Matches(DummyData.ProfilePrefix + h)
  {
    var p := UrlParts(true, false, h, false);
    assert Format(p) == DummyData.ProfilePrefix + h;
    ParseFormat(p);
  }

  /** A URL made of the profile prefix and a handle is a single line that
      trimming leaves unchanged. */
  lemma ProfileLineClean(h: string)
    requires IsHandle(h)
    ensures var u := DummyData.ProfilePrefix + h; '\n' !in u && u != [] && Trim(u) == u
  {
    var u := DummyData.ProfilePrefix + h;
    assert u[0] == 'h';
    assert u[|u| - 1] == h[|h| - 1];
    assert IsHandleChar(h[|h| - 1]);
    TrimPadded("", u, "");
    assert "" + u + "" == u;
    forall i | 0 <= i < |u| ensures u[i] != '\n' {
      if i >= |DummyData.ProfilePrefix| {
        assert u[i] == h[i - |DummyData.ProfilePrefix|];
        assert IsHandleChar(h[i - |DummyData.ProfilePrefix|]);
      } else {
        assert u[i] == DummyData.ProfilePrefix[i];
      }
    }
  }

  /** Every template URL is the profile prefix followed by a handle. */
  lemma TemplateUrlsAreProfileLines()
    ensures forall k :: 0 <= k < |DummyData.TemplateUrls| ==>
      exists h :: IsHandle(h) && DummyData.TemplateUrls[k] == DummyData.ProfilePrefix + h
  {
    FirstHandles();
    LastHandles();
  }

  lemma FirstHandles()
    ensures IsHandle("john-doe") && IsHandle("mia-khalifa") && IsHandle("elon-musk")
    ensures IsHandle("taylor-swift") && IsHandle("michael-scott")
  {
  }

  lemma LastHandles()
    ensures IsHandle("walter-white") && IsHandle("sherlock-holmes") && IsHandle("bruce-wayne")
    ensures IsHandle("tony-stark") && IsHandle("daenerys-targaryen")
  {
  }

  /** Up to 20 profile URLs, one per line, start a batch with exactly those
      URLs in that order. */
  lemma ProfileLinesStart(urls: seq<string>)
    requires 1 <= |urls| <= MaxProfiles
    requires forall k :: 0 <= k < |urls| ==>
      exists h :: IsHandle(h) && urls[k] == DummyData.ProfilePrefix + h
    ensures CleanLines(Join(urls, "\n")) == urls
    ensures ValidateUrls(Join(urls, "\n")) == Valid(urls)
    ensures StartAttempt(Join(urls, "\n")) == Start(urls)
  {
    forall k | 0 <= k < |urls|
      ensures '\n' !in urls[k] && urls[k] != [] && Trim(urls[k]) == urls[k] && Matches(urls[k])
    {
      var h :| IsHandle(h) && urls[k] == DummyData.ProfilePrefix + h;
      ProfileLineMatches(h);
      ProfileLineClean(h);
    }
    CleanLinesOfLines(urls);
    FilterNone(urls, Fails);
  }

  /** Non-empty lines that trimming leaves unchanged, joined with `\n`, clean
      back to themselves. */
  lemma CleanLinesOfLines(lines: seq<string>)
    requires |lines| >= 1
    requires forall k :: 0 <= k < |lines| ==> '\n' !in lines[k] && lines[k] != [] && Trim(lines[k]) == lines[k]
    ensures CleanLines(Join(lines, "\n")) == lines
  {
    SplitJoin(lines, '\n');
    assert Split(Join(lines, "\n"), "\n") == lines;
    assert Map(lines, Trim) == lines;
    FilterAll(lines, IsNonEmpty);
  }

  /** The template text validates to exactly the ten template URLs, in order,
      and starts a batch with them. */
  lemma TemplateStarts()
    ensures CleanLines(TemplateText()) == DummyData.TemplateUrls
    ensures StartAttempt(TemplateText()) == Start(DummyData.TemplateUrls)
  {
    TemplateUrlsAreProfileLines();
    ProfileLinesStart(DummyData.TemplateUrls);
  }

  // ---------------------------------------------------------------------------
  // The component state

  /** The panel's state: the textarea text and the error line. */
  class InputPanel {
    var urls: string
    var error: string

    constructor()
      ensures urls == "" && error == ""
    {
      urls := "";
      error := "";
    }

    /** Typing into the textarea. */
    method SetUrls(text: string)
      modifies this
      ensures urls == text && error == old(error)
    {
      urls := text;
    }

    /** `loadTemplate`: the template URLs, one per line, and no error. */
    method LoadTemplate()
      modifies this
      ensures urls == TemplateText() && error == ""
    {
      urls := Join(DummyData.TemplateUrls, "\n");
      error := "";
    }

    /** The start button's `disabled` rule. */
    predicate StartDisabled(isLoading: bool)
      reads this
    {
      isLoading || Trim(urls) == []
    }

    /** `handleStartScraping`: the error is cleared, then either the callback
        receives the batch (returned here) or the error text is set. */
    method HandleStartScraping() returns (started: Option<seq<string>>)
      modifies this
      ensures urls == old(urls)
      ensures StartAttempt(urls).Start? ==> started == Some(StartAttempt(urls).batch) && error == ""
      ensures StartAttempt(urls).Rejected? ==> started == None && error == StartAttempt(urls).error
    {
      error := "";
      started := None;
      var validated := ValidateUrls(urls);
      match validated
      case Invalid(message) =>
        error := message;
      case Valid(list) =>
        if |list| == 0 {
          error := EmptyMessage;
        } else if |list| > MaxProfiles {
          error := TooManyMessage;
        } else {
          started := Some(list);
        }
    }
  }

  /** Loading the template and pressing start hands the ten template URLs to
      the callback and leaves no error. */
  method TemplateScenario() returns (started: Option<seq<string>>)
    ensures started == Some(DummyData.TemplateUrls)
  {
    var panel := new InputPanel();
    panel.LoadTemplate();
    TemplateStarts();
    started := panel.HandleStartScraping();
    assert panel.error == "";
  }

  /** A press of the enabled start button (not loading, `urls.trim()`
      non-empty) finds at least one cleaned line, so it never meets the
      empty-batch error. */
  lemma EnabledPress(panel: InputPanel)
    requires !panel.StartDisabled(false)
    ensures |CleanLines(panel.urls)| > 0
    ensures StartAttempt(panel.urls) != Rejected(EmptyMessage)
  {
    EnabledIffSomeLine(panel.urls);
    SomeLineNotEmptyError(panel.urls);
  }

  /** With a cleaned line present the press is either started or rejected
      with another message than the empty-batch one. */
  lemma SomeLineNotEmptyError(text: string)
    requires |CleanLines(text)| > 0
    ensures StartAttempt(text) != Rejected(EmptyMessage)
  {
    var v := ValidateUrls(text);
    if v.Invalid? {
      InvalidMessageDiffers(InvalidLines(CleanLines(text)));
    }
  }
}
