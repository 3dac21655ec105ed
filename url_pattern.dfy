/**
 * The profile-URL shape the input validator accepts: the regular expression
 * `^https?:\/\/(www\.)?linkedin\.com\/in\/[\w-]+\/?$`, hand-coded as a
 * character-level parser whose results are the choices the pattern makes.
 */
module UrlPattern {
  import opened Strings

  /** `\w` of a regular expression without the Unicode flag. */
  predicate IsWordChar(c: char) {
    ('A' <= c <= 'Z') || ('a' <= c <= 'z') || ('0' <= c <= '9') || c == '_'
  }

  /** `[\w-]` */
  predicate IsHandleChar(c: char) {
    IsWordChar(c) || c == '-'
  }

  /** `[\w-]+` */
  predicate IsHandle(h: string) {
    |h| > 0 && forall i :: 0 <= i < |h| ==> IsHandleChar(h[i])
  }

  /** The choices one match of the pattern makes: `https` or `http`, whether
      `www.` is present, the handle, and whether a final `/` is present. */
  datatype UrlParts = UrlParts(secure: bool, www: bool, handle: string, trailingSlash: bool)

  const Host: string := "linkedin.com/in/"

  predicate HasPrefix(s: string, pre: string) {
    |pre| <= |s| && s[..|pre|] == pre
  }

  function SchemeText(secure: bool): string {
    if secure then "https://" else "http://"
  }

  function WwwText(www: bool): string {
    if www then "www." else ""
  }

  function SlashText(slash: bool): string {
    if slash then "/" else ""
  }

  /** The URL the pattern matches for the given choices. */
  function Format(p: UrlParts): string {
    SchemeText(p.secure) + (WwwText(p.www) + (Host + (p.handle + SlashText(p.trailingSlash))))
  }

  /** `https?:\/\/`: whether the scheme is `https`, and what follows it. */
  function ParseScheme(s: string): (r: Option<(bool, string)>)
    ensures r.Some? ==> s == SchemeText(r.value.0) + r.value.1
  {
    if HasPrefix(s, "https://") then
      assert s == s[..8] + s[8..];
      Some((true, s[8..]))
    else if HasPrefix(s, "http://") then
      assert s == s[..7] + s[7..];
      Some((false, s[7..]))
    else None
  }

  /** `(www\.)?`: whether `www.` is present, and what follows it. Taking
      `www.` whenever it is there loses no match, because the host that must
      come next starts with `l`. */
  function ParseWww(s: string): (r: (bool, string))
    ensures s == WwwText(r.0) + r.1
  {
    if HasPrefix(s, "www.") then
      assert s == s[..4] + s[4..];
      (true, s[4..])
    else (false, s)
  }

  /** `[\w-]+\/?$` on what follows the host. */
  function ParseHandle(s: string): (r: Option<(string, bool)>)
    ensures r.Some? ==> IsHandle(r.value.0) && s == r.value.0 + SlashText(r.value.1)
  {
    if |s| > 0 && s[|s| - 1] == '/' then
      (if IsHandle(s[..|s| - 1]) then
         assert s == s[..|s| - 1] + "/";
         Some((s[..|s| - 1], true))
       else None)
    else if IsHandle(s) then Some((s, false))
    else None
  }

  /** Matches the whole of `s` against the pattern and returns the choices the
      match makes. */
  function Parse(s: string): (r: Option<UrlParts>)
    ensures r.Some? ==> IsHandle(r.value.handle) && Format(r.value) == s
  {
    match ParseScheme(s)
    case None => None
    case Some((secure, afterScheme)) =>
      var (www, afterWww) := ParseWww(afterScheme);
      if !HasPrefix(afterWww, Host) then None
      else
        var tail := afterWww[|Host|..];
        match ParseHandle(tail)
        case None => None
        case Some((handle, slash)) =>
          assert afterWww == Host + tail;
          Some(UrlParts(secure, www, handle, slash))
  }

  /** `linkedInRegex.test(s)` */
  predicate Matches(s: string) {
    Parse(s).Some?
  }

  lemma ParseSchemeOf(secure: bool, rest: string)
    ensures ParseScheme(SchemeText(secure) + rest) == Some((secure, rest))
  {
    var s := SchemeText(secure) + rest;
    if secure {
      assert s[..8] == "https://";
    } else {
      assert s[4] == ':';
      assert s[..7] == "http://";
    }
  }

  lemma ParseWwwOf(www: bool, rest: string)
    requires HasPrefix(rest, Host)
    ensures ParseWww(WwwText(www) + rest) == (www, rest)
  {
    var s := WwwText(www) + rest;
    if www {
      assert s[..4] == "www.";
    } else {
      assert s == rest;
      assert s[0] == rest[..|Host|][0] == 'l';
    }
  }

  lemma ParseHandleOf(handle: string, slash: bool)
    requires IsHandle(handle)
    ensures ParseHandle(handle + SlashText(slash)) == Some((handle, slash))
  {
    var s := handle + SlashText(slash);
    if slash {
      assert s[..|s| - 1] == handle;
    } else {
      assert s == handle;
      assert IsHandleChar(s[|s| - 1]);
    }
  }

  /** Parsing a formatted URL recovers the choices it was formatted from. */
  lemma ParseFormat(p: UrlParts)
    requires IsHandle(p.handle)
    ensures Parse(Format(p)) == Some(p)
  {
    var tail := p.handle + SlashText(p.trailingSlash);
    var afterWww := Host + tail;
    var afterScheme := WwwText(p.www) + afterWww;
    assert Format(p) == SchemeText(p.secure) + afterScheme;
    ParseSchemeOf(p.secure, afterScheme);
    assert HasPrefix(afterWww, Host);
    ParseWwwOf(p.www, afterWww);
    assert afterWww[|Host|..] == tail;
    ParseHandleOf(p.handle, p.trailingSlash);
  }

  /** A line passes the pattern exactly when it is the URL of some choice of
      scheme, `www.`, non-empty handle over `[A-Za-z0-9_-]` and final `/`. */
  lemma MatchesIff(s: string)
    ensures Matches(s) <==> exists p: UrlParts :: IsHandle(p.handle) && Format(p) == s
  {
    if exists p: UrlParts :: IsHandle(p.handle) && Format(p) == s {
      var p: UrlParts :| IsHandle(p.handle) && Format(p) == s;
      ParseFormat(p);
    }
  }
}
