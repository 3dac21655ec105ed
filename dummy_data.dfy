/**
 * The synthetic record generator (src/data/dummyData.ts): the fixed tables,
 * the display name derived from a profile URL, and `generateProfileData`.
 *
 * The generator draws a title index and reorders the module-level skills pool
 * in place with a random comparator. Both random choices are inputs here: a
 * `Draw` carries the title index, the order the sort leaves the pool in, and
 * the record id.
 */
module DummyData {
  import opened Strings
  import opened UrlPattern
  import opened Types
  import opened Arrays

  /** The text every template URL starts with. */
  const ProfilePrefix: string := "https://linkedin.com/in/"

  /** `dummyLinkedInUrls`: ten profile URLs, written as the common prefix
      followed by the handle. */
  const TemplateUrls: seq<string> := [
    ProfilePrefix + "john-doe",
    ProfilePrefix + "mia-khalifa",
    ProfilePrefix + "elon-musk",
    ProfilePrefix + "taylor-swift",
    ProfilePrefix + "michael-scott",
    ProfilePrefix + "walter-white",
    ProfilePrefix + "sherlock-holmes",
    ProfilePrefix + "bruce-wayne",
    ProfilePrefix + "tony-stark",
    ProfilePrefix + "daenerys-targaryen"
  ]

  const SkillsPool: seq<string> := [
    "React", "TypeScript", "Node.js", "Python", "JavaScript", "GraphQL",
    "AWS", "Docker", "Kubernetes", "MongoDB", "PostgreSQL", "Redis",
    "Machine Learning", "Data Science", "Leadership", "Strategic Planning",
    "Product Management", "UI/UX Design", "Cybersecurity", "DevOps",
    "Artificial Intelligence", "Blockchain", "Cloud Computing", "Analytics"
  ]

  const JobTitles: seq<string> := [
    "Software Engineer", "Product Manager", "Data Scientist", "UX Designer",
    "DevOps Engineer", "Marketing Director", "CEO", "CTO", "VP Engineering",
    "Senior Developer", "Technical Lead", "Security Analyst", "Full Stack Developer",
    "Machine Learning Engineer", "Business Analyst", "Growth Hacker"
  ]

  /** The number of job titles, `jobTitles.length`. */
  const TitleCount: nat := 16

  const AvatarBase: string := "https://api.dicebear.com/7.x/avataaars/svg?seed="

  /** How many skills a record carries: `slice(0, 3)`. */
  const SkillsPerProfile: nat := 3

  predicate Distinct<T(==)>(s: seq<T>) {
    forall i, j :: 0 <= i < j < |s| ==> s[i] != s[j]
  }

  /** The skills table lists 24 skills, none twice. */
  lemma SkillsPoolDistinct()
    ensures |SkillsPool| == 24 && Distinct(SkillsPool)
  {
  }

  /** The title table lists 16 titles, none twice, and the template ten URLs. */
  lemma TitlesDistinct()
    ensures |JobTitles| == TitleCount && Distinct(JobTitles)
    ensures |TemplateUrls| == 10
  {
  }

  // ---------------------------------------------------------------------------
  // Display name

  /** `url.split('/in/')[1]`; `None` where that element is missing, which is
      where `generateProfileData` throws (the `.replace` on `undefined`). */
  function HandleSegment(url: string): Option<string> {
    var parts := Split(url, "/in/");
    if |parts| < 2 then None else Some(parts[1])
  }

  /** `toUpperCase` on the characters `\w` matches. */
  function Upper(c: char): char {
    if 'a' <= c <= 'z' then (c as int - 32) as char else c
  }

  /** `\b\w` matches at `i`: a word character with no word character before it. */
  predicate IsWordStart(s: string, i: nat)
    requires i < |s|
  {
    IsWordChar(s[i]) && (i == 0 || !IsWordChar(s[i - 1]))
  }

  /** `replace(/-/g, ' ')` */
  function HyphensToSpaces(s: string): (r: string)
    ensures |r| == |s|
  {
    if s == [] then []
    else [if s[0] == '-' then ' ' else s[0]] + HyphensToSpaces(s[1..])
  }

  /** Every `-` becomes a space and every other character stays. */
  lemma {:induction false} HyphensToSpacesAt(s: string)
    ensures forall i :: 0 <= i < |s| ==> HyphensToSpaces(s)[i] == (if s[i] == '-' then ' ' else s[i])
  {
    if s != [] {
      HyphensToSpacesAt(s[1..]);
      forall i | 1 <= i < |s| ensures HyphensToSpaces(s)[i] == (if s[i] == '-' then ' ' else s[i]) {
        assert HyphensToSpaces(s)[i] == HyphensToSpaces(s[1..])[i - 1] && s[1..][i - 1] == s[i];
      }
    }
  }

  /** `replace(/\b\w/g, l => l.toUpperCase())` scanning left to right;
      `afterWord` says whether the character before `s` is a word character. */
  function CapitalizeFrom(s: string, afterWord: bool): (r: string)
    ensures |r| == |s|
  {
    if s == [] then []
    else [if IsWordChar(s[0]) && !afterWord then Upper(s[0]) else s[0]] + CapitalizeFrom(s[1..], IsWordChar(s[0]))
  }

  /** A character is upper-cased exactly where a word starts: at the front
      when the character before `s` is not a word character, elsewhere when
      the character before it in `s` is not. */
  lemma {:induction false} CapitalizeFromAt(s: string, afterWord: bool)
    ensures |s| > 0 ==> CapitalizeFrom(s, afterWord)[0] == (if IsWordChar(s[0]) && !afterWord then Upper(s[0]) else s[0])
    ensures forall i :: 0 < i < |s| ==> CapitalizeFrom(s, afterWord)[i] == (if IsWordStart(s, i) then Upper(s[i]) else s[i])
  {
    if s != [] {
      var r := CapitalizeFrom(s, afterWord);
      var rest := CapitalizeFrom(s[1..], IsWordChar(s[0]));
      CapitalizeFromAt(s[1..], IsWordChar(s[0]));
      forall i | 0 < i < |s| ensures r[i] == (if IsWordStart(s, i) then Upper(s[i]) else s[i]) {
        assert r[i] == rest[i - 1] && s[1..][i - 1] == s[i];
        if i > 1 {
          assert IsWordStart(s, i) == IsWordStart(s[1..], i - 1);
        }
      }
    }
  }

  /** The first character of every run of word characters upper-cased. */
  function CapitalizeWords(s: string): (r: string)
    ensures |r| == |s|
  {
    CapitalizeFrom(s, false)
  }

  /** Exactly the characters that start a word are upper-cased. */
  lemma CapitalizeWordsAt(s: string)
    ensures forall i :: 0 <= i < |s| ==> CapitalizeWords(s)[i] == (if IsWordStart(s, i) then Upper(s[i]) else s[i])
  {
    CapitalizeFromAt(s, false);
  }

  /** The name shown for a handle segment: hyphens become spaces, then each
      word is capitalised. */
  function DisplayName(segment: string): string {
    CapitalizeWords(HyphensToSpaces(segment))
  }

  /** The profile name of `url`; `None` where `generateProfileData` throws
      (the `.replace` on `undefined`). */
  function ProfileName(url: string): Option<string> {
    match HandleSegment(url)
    case None => None
    case Some(segment) => Some(DisplayName(segment))
  }

  /** Character by character, the display name is the segment with every `-`
      turned into a space and the first character of each word-character run
      upper-cased; word runs are those of the segment itself, because `-` and
      space are both non-word characters. */
  lemma DisplayNameAt(segment: string, i: nat)
    requires i < |segment|
    ensures |DisplayName(segment)| == |segment|
    ensures DisplayName(segment)[i] ==
      if segment[i] == '-' then ' '
      else if IsWordStart(segment, i) then Upper(segment[i])
      else segment[i]
  {
    var spaced := HyphensToSpaces(segment);
    HyphensToSpacesAt(segment);
    CapitalizeWordsAt(spaced);
    assert IsWordStart(spaced, i) == IsWordStart(segment, i);
  }

  /** The display name contains no hyphen. */
  lemma DisplayNameHasNoHyphen(segment: string)
    ensures '-' !in DisplayName(segment)
  {
    var name := DisplayName(segment);
    forall i | 0 <= i < |name| ensures name[i] != '-' {
      DisplayNameAt(segment, i);
    }
  }

  /** Deriving a name from a derived name changes nothing. */
  lemma DisplayNameIdempotent(segment: string)
    ensures DisplayName(DisplayName(segment)) == DisplayName(segment)
  {
    var name := DisplayName(segment);
    var again := DisplayName(name);
    forall i | 0 <= i < |name| ensures again[i] == name[i] {
      DisplayNameAt(name, i);
      DisplayNameAt(segment, i);
      if i > 0 {
        DisplayNameAt(segment, i - 1);
      }
    }
  }

  /** `.../in/john-doe` is shown as `John Doe`. */
  lemma JohnDoe()
    ensures DisplayName("john-doe") == "John Doe"
  {
    HyphensToSpacesAt("john-doe");
    assert HyphensToSpaces("john-doe") == "john doe";
    CapitalizeWordsAt("john doe");
  }

  // ---------------------------------------------------------------------------
  // Where the name comes from in a URL the validator accepts

  /** What an accepted URL has before its handle: scheme, `www.` and host. */
  function HostPrefix(p: UrlParts): string {
    SchemeText(p.secure) + WwwText(p.www) + Host
  }

  lemma FormatSplit(p: UrlParts)
    ensures Format(p) == HostPrefix(p) + (p.handle + SlashText(p.trailingSlash))
  {
  }

  /** A text that ends in `/in/` and holds no earlier `/in/` puts the first
      `/in/` of any continuation at its own end. */
  lemma MarkerAtEnd(pre: string, tail: string)
    requires |pre| >= 4 && pre[|pre| - 4..] == "/in/"
    requires forall j: nat :: j + 4 < |pre| ==> !OccursAt(pre, "/in/", j)
    ensures IndexOf(pre + tail, "/in/") == Some(|pre| - 4)
  {
    var s := pre + tail;
    forall j: nat | j < |pre| - 4 ensures !OccursAt(s, "/in/", j) {
      assert !OccursAt(pre, "/in/", j);
      assert s[j..j + 4] == pre[j..j + 4];
    }
    assert s[|pre| - 4..|pre|] == pre[|pre| - 4..];
    IndexOfIs(s, "/in/", |pre| - 4);
  }

  /** `n://w` + host holds `/in/` only at its end, when neither `n` nor `w`
      holds a `/` and `w` is empty or does not start with `i`. */
  lemma MarkerOnlyAtEnd(pre: string, n: string, w: string)
    requires '/' !in n && '/' !in w && (w == [] || w[0] != 'i')
    requires pre == n + "://" + w + Host
    ensures |pre| >= 4 && pre[|pre| - 4..] == "/in/"
    ensures forall j: nat :: j + 4 < |pre| ==> !OccursAt(pre, "/in/", j)
  {
    var q := w + "linkedin.com";
    assert '/' !in q && q[0] != 'i';
    assert forall i :: |n| + 3 <= i < |pre| - 4 ==> pre[i] == q[i - |n| - 3];
    forall j: nat | j + 4 < |pre| ensures !OccursAt(pre, "/in/", j) {
      assert pre[j..j + 4][0] == pre[j] && pre[j..j + 4][1] == pre[j + 1];
      if j < |n| {
        assert pre[j] == n[j];
      } else if j == |n| {
        assert pre[j] == ':';
      } else if j == |n| + 1 {
        assert pre[j + 1] == '/';
      } else if j == |n| + 2 {
        assert pre[j + 1] == q[0];
      } else {
        assert pre[j] == q[j - |n| - 3];
      }
    }
    assert pre[|pre| - 4..] == Host[|Host| - 4..];
  }

  /** The scheme is a word without `/` followed by `://`. */
  lemma SchemeParts(secure: bool) returns (n: string)
    ensures SchemeText(secure) == n + "://" && '/' !in n
  {
    n := if secure then "https" else "http";
  }

  /** The text before the handle ends in `/in/` and holds no earlier `/in/`. */
  lemma HostPrefixMarker(p: UrlParts)
    ensures |HostPrefix(p)| >= 4 && HostPrefix(p)[|HostPrefix(p)| - 4..] == "/in/"
    ensures forall j: nat :: j + 4 < |HostPrefix(p)| ==> !OccursAt(HostPrefix(p), "/in/", j)
  {
    var n := SchemeParts(p.secure);
    MarkerOnlyAtEnd(HostPrefix(p), n, WwwText(p.www));
  }

  /** In an accepted URL the first `/in/` is the one that ends the host. */
  lemma FirstInMarker(p: UrlParts)
    ensures IndexOf(Format(p), "/in/") == Some(|HostPrefix(p)| - 4)
  {
    HostPrefixMarker(p);
    FormatSplit(p);
    MarkerAtEnd(HostPrefix(p), p.handle + SlashText(p.trailingSlash));
  }

  /** The segment after `/in/` of an accepted URL is its handle together with
      the final `/` when there is one. */
  lemma SegmentOfProfileUrl(p: UrlParts)
    requires IsHandle(p.handle)
    ensures HandleSegment(Format(p)) == Some(p.handle + SlashText(p.trailingSlash))
  {
    var s := Format(p);
    var tail := p.handle + SlashText(p.trailingSlash);
    FirstInMarker(p);
    FormatSplit(p);
    var k := |HostPrefix(p)| - 4;
    assert s[k + 4..] == tail;
    NoMarkerInHandle(p.handle, SlashText(p.trailingSlash));
    assert Split(s, "/in/") == [s[..k]] + Split(tail, "/in/");
  }

  lemma NoMarkerInHandle(h: string, sl: string)
    requires IsHandle(h) && |sl| <= 1
    ensures Split(h + sl, "/in/") == [h + sl]
  {
    var tail := h + sl;
    forall j: nat ensures !OccursAt(tail, "/in/", j) {
      if j + 4 <= |tail| {
        assert tail[j..j + 4][0] == tail[j] == h[j];
        assert IsHandleChar(h[j]);
      }
    }
  }

  /** The name of an accepted URL is the display name of its handle, keeping
      the final `/`: `john-doe/` gives `John Doe/`. */
  lemma NameOfProfileUrl(p: UrlParts)
    requires IsHandle(p.handle)
    ensures ProfileName(Format(p)) == Some(DisplayName(p.handle + SlashText(p.trailingSlash)))
  {
    SegmentOfProfileUrl(p);
  }

  // ---------------------------------------------------------------------------
  // Reordering the skills pool

  /** The indices `0, 1, ..., n - 1`. */
  function Range(n: nat): (r: seq<nat>)
    ensures |r| == n && forall i :: 0 <= i < n ==> r[i] == i
  {
    if n == 0 then [] else Range(n - 1) + [n - 1]
  }

  /** `order` picks, for each position of a sequence of length `n`, an index
      of that sequence. */
  predicate IsArrangement(order: seq<nat>, n: nat) {
    |order| == n && forall k :: 0 <= k < |order| ==> order[k] < n
  }

  /** `order` lists each index of a sequence of length `n` exactly once. */
  predicate IsPermutation(order: seq<nat>, n: nat) {
    IsArrangement(order, n) && multiset(order) == multiset(Range(n))
  }

  /** `s` rearranged so that position `k` holds `s[order[k]]`. */
  function Permute<T>(s: seq<T>, order: seq<nat>): (r: seq<T>)
    requires forall k :: 0 <= k < |order| ==> order[k] < |s|
    ensures |r| == |order|
  {
    if order == [] then [] else [s[order[0]]] + Permute(s, order[1..])
  }

  /** Position `k` of the rearranged sequence holds `s[order[k]]`. */
  lemma {:induction false} PermuteAt<T>(s: seq<T>, order: seq<nat>)
    requires forall k :: 0 <= k < |order| ==> order[k] < |s|
    ensures forall k :: 0 <= k < |order| ==> Permute(s, order)[k] == s[order[k]]
  {
    if order != [] {
      PermuteAt(s, order[1..]);
      forall k | 0 < k < |order| ensures Permute(s, order)[k] == s[order[k]] {
        assert order[1..][k - 1] == order[k];
      }
    }
  }

  /** The multiset of a sequence is that of the sequence without its element
      at `k`, plus that element. */
  lemma MultisetRemoveAt<T>(s: seq<T>, k: nat)
    requires k < |s|
    ensures multiset(s) == multiset(s[..k] + s[k + 1..]) + multiset{s[k]}
  {
    assert s == s[..k] + [s[k]] + s[k + 1..];
  }

  /** Two sequences with one multiset keep one multiset once an element they
      share is dropped from each. */
  lemma MatchedRests<T>(xs: seq<T>, ys: seq<T>, k: nat)
    requires multiset(xs) == multiset(ys)
    requires xs != [] && k < |ys| && ys[k] == xs[0]
    ensures multiset(xs[1..]) == multiset(ys[..k] + ys[k + 1..])
  {
    assert xs == [xs[0]] + xs[1..];
    MultisetRemoveAt(ys, k);
    MultisetCancel(multiset(xs[1..]), multiset(ys[..k] + ys[k + 1..]), xs[0]);
  }

  lemma MultisetCancel<T>(a: multiset<T>, b: multiset<T>, x: T)
    requires a + multiset{x} == b + multiset{x}
    ensures a == b
  {
    forall e ensures a[e] == b[e] {
      assert (a + multiset{x})[e] == (b + multiset{x})[e];
    }
  }

  /** A position of an element of the multiset of `s`. */
  lemma PositionOf<T>(s: seq<T>, x: T) returns (k: nat)
    requires x in multiset(s)
    ensures k < |s| && s[k] == x
  {
    assert x in s;
    k :| 0 <= k < |s| && s[k] == x;
  }

  /** Dropping index `k` from an index list drops one copy of the element it
      picks. */
  lemma PermuteRemoveAt<T>(s: seq<T>, ys: seq<nat>, k: nat)
    requires forall i :: 0 <= i < |ys| ==> ys[i] < |s|
    requires k < |ys|
    ensures multiset(Permute(s, ys)) ==
      multiset(Permute(s, ys[..k] + ys[k + 1..])) + multiset{s[ys[k]]}
  {
    var ps := Permute(s, ys);
    var zs := ys[..k] + ys[k + 1..];
    PermuteAt(s, ys);
    PermuteAt(s, zs);
    assert Permute(s, zs) == ps[..k] + ps[k + 1..];
    MultisetRemoveAt(ps, k);
  }

  /** The first index picks the first element. */
  lemma PermuteCons<T>(s: seq<T>, xs: seq<nat>)
    requires forall i :: 0 <= i < |xs| ==> xs[i] < |s|
    requires xs != []
    ensures multiset(Permute(s, xs)) == multiset(Permute(s, xs[1..])) + multiset{s[xs[0]]}
  {
    assert Permute(s, xs) == [s[xs[0]]] + Permute(s, xs[1..]);
  }

  /** Index lists whose first and `k`-th indices agree pick the same
      multiset of elements when the rest of them do. */
  lemma PermuteMatchedHeads<T>(s: seq<T>, xs: seq<nat>, ys: seq<nat>, k: nat)
    requires forall i :: 0 <= i < |xs| ==> xs[i] < |s|
    requires forall i :: 0 <= i < |ys| ==> ys[i] < |s|
    requires xs != [] && k < |ys| && ys[k] == xs[0]
    requires multiset(Permute(s, xs[1..])) == multiset(Permute(s, ys[..k] + ys[k + 1..]))
    ensures multiset(Permute(s, xs)) == multiset(Permute(s, ys))
  {
    PermuteCons(s, xs);
    PermuteRemoveAt(s, ys, k);
  }

  /** Picking elements by index lists with the same multiset of indices picks
      the same multiset of elements. */
  lemma {:induction false} PermuteSameIndices<T>(s: seq<T>, xs: seq<nat>, ys: seq<nat>)
    requires forall k :: 0 <= k < |xs| ==> xs[k] < |s|
    requires forall k :: 0 <= k < |ys| ==> ys[k] < |s|
    requires multiset(xs) == multiset(ys)
    ensures multiset(Permute(s, xs)) == multiset(Permute(s, ys))
    decreases |xs|
  {
    if xs == [] {
      assert |ys| == |multiset(ys)| == 0;
    } else {
      var x := xs[0];
      var k := PositionOf(ys, x);
      var ys' := ys[..k] + ys[k + 1..];
      MatchedRests(xs, ys, k);
      PermuteSameIndices(s, xs[1..], ys');
      PermuteMatchedHeads(s, xs, ys, k);
    }
  }

  /** Reordering by a permutation keeps the multiset of elements. */
  lemma PermuteIsPermutation<T>(s: seq<T>, order: seq<nat>)
    requires IsPermutation(order, |s|)
    ensures |Permute(s, order)| == |s|
    ensures multiset(Permute(s, order)) == multiset(s)
  {
    PermuteSameIndices(s, order, Range(|s|));
    PermuteIdentity(s);
  }

  /** The identity order leaves a sequence as it is. */
  lemma PermuteIdentity<T>(s: seq<T>)
    ensures Permute(s, Range(|s|)) == s
  {
    PermuteAt(s, Range(|s|));
  }

  /** A sequence has distinct elements exactly when no element occurs twice in
      its multiset. */
  lemma {:induction false} DistinctByMultiset<T>(s: seq<T>)
    ensures Distinct(s) <==> forall x :: multiset(s)[x] <= 1
  {
    if s != [] {
      var t := s[1..];
      assert s == [s[0]] + t;
      DistinctByMultiset(t);
      if Distinct(s) {
        assert s[0] !in t by {
          forall j | 0 <= j < |t| ensures t[j] != s[0] {
            assert t[j] == s[j + 1];
          }
        }
        assert Distinct(t) by {
          forall i, j | 0 <= i < j < |t| ensures t[i] != t[j] {
            assert t[i] == s[i + 1] && t[j] == s[j + 1];
          }
        }
      } else {
        var i, j :| 0 <= i < j < |s| && s[i] == s[j];
        if i == 0 {
          assert s[j] == t[j - 1];
          assert multiset(t)[s[0]] >= 1;
          assert multiset(s)[s[0]] >= 2;
        } else {
          assert t[i - 1] == t[j - 1];
          assert !Distinct(t);
          var x :| multiset(t)[x] > 1;
          assert multiset(s)[x] > 1;
        }
      }
    }
  }

  /** Same multiset, both distinct or neither. */
  lemma DistinctUnderPermutation<T>(s: seq<T>, t: seq<T>)
    requires multiset(s) == multiset(t)
    ensures Distinct(s) == Distinct(t)
  {
    DistinctByMultiset(s);
    DistinctByMultiset(t);
  }

  /** `slice(0, 3)` */
  function TakeSkills(pool: seq<string>): seq<string> {
    Prefix(pool, SkillsPerProfile)
  }

  /** Any arrangement of a table of at least three distinct entries gives
      three distinct skills from that table. */
  lemma SkillsOfArrangement(pool: seq<string>, table: seq<string>)
    requires multiset(pool) == multiset(table)
    requires Distinct(table) && |table| >= SkillsPerProfile
    ensures |TakeSkills(pool)| == SkillsPerProfile
    ensures Distinct(TakeSkills(pool))
    ensures forall k :: 0 <= k < |TakeSkills(pool)| ==> TakeSkills(pool)[k] in table
  {
    assert |pool| == |multiset(pool)| == |table|;
    DistinctUnderPermutation(pool, table);
    var skills := TakeSkills(pool);
    forall k | 0 <= k < |skills| ensures skills[k] in table {
      assert skills[k] == pool[k];
      assert pool[k] in multiset(pool);
    }
  }

  /** `skillsPool.sort(() => 0.5 - Math.random())`: the pool rearranged in
      place so that position `k` holds what was at `order[k]`. */
  method SortPool(pool: array<string>, order: seq<nat>)
    requires IsArrangement(order, pool.Length)
    modifies pool
    ensures pool[..] == Permute(old(pool[..]), order)
  {
    var before := pool[..];
    PermuteAt(before, order);
    var i := 0;
    while i < pool.Length
      invariant 0 <= i <= pool.Length
      invariant pool[..i] == Permute(before, order)[..i]
      invariant pool[i..] == before[i..]
    {
      pool[i] := before[order[i]];
      i := i + 1;
    }
  }

  // ---------------------------------------------------------------------------
  // generateProfileData

  /** The random choices of one call. */
  datatype Draw = Draw(titleIndex: nat, order: seq<nat>, id: string)

  /** The shape of what the random source produces for a pool of `poolSize`
      skills: `Math.floor(Math.random() * 16)` is an index of the title table,
      and the sort picks an index of the pool for every position. */
  predicate ValidDraw(d: Draw, poolSize: nat) {
    d.titleIndex < TitleCount && IsArrangement(d.order, poolSize)
  }

  /** What the sort guarantees besides: every skill of the pool stays in it
      exactly once. */
  predicate Shuffles(d: Draw, poolSize: nat) {
    IsPermutation(d.order, poolSize)
  }

  /** A drawn title index picks an entry of the title table. */
  lemma TitleInTable(i: nat)
    requires i < TitleCount
    ensures i < |JobTitles| && JobTitles[i] in JobTitles
  {
  }

  /** `https://api.dicebear.com/7.x/avataaars/svg?seed=${name}` */
  function Avatar(name: string): string {
    AvatarBase + name
  }

  /** The avatar locator determines the name it was made from. */
  lemma AvatarDeterminesName(a: string, b: string)
    ensures Avatar(a) == Avatar(b) <==> a == b
  {
    if Avatar(a) == Avatar(b) {
      assert a == Avatar(a)[|AvatarBase|..];
      assert b == Avatar(b)[|AvatarBase|..];
    }
  }

  /** The record for `url` once its name is known: the title the draw picks,
      the first three skills of the pool as the draw rearranges it, the URL,
      and the avatar keyed by the name. */
  function ProfileRecord(url: string, name: string, d: Draw, pool: seq<string>): LinkedInProfile
    requires ValidDraw(d, |pool|)
  {
    LinkedInProfile(d.id, name, JobTitles[d.titleIndex], TakeSkills(Permute(pool, d.order)), url, Avatar(name))
  }

  /** The record `generateProfileData(url)` returns when the skills pool holds
      `pool` before the call; `None` where it throws. */
  function GeneratedProfile(url: string, d: Draw, pool: seq<string>): Option<LinkedInProfile>
    requires ValidDraw(d, |pool|)
  {
    match ProfileName(url)
    case None => None
    case Some(name) => Some(ProfileRecord(url, name, d, pool))
  }

  /** The skills pool after the call: reordered, unless the call threw before
      reaching the sort. */
  function PoolAfter(url: string, d: Draw, pool: seq<string>): seq<string>
    requires ValidDraw(d, |pool|)
  {
    if ProfileName(url).None? then pool else Permute(pool, d.order)
  }

  /** What a generated record promises: the call succeeds exactly when the URL
      has a segment after `/in/`; the name is the one derived from the URL, the
      URL is kept verbatim, the avatar is keyed by the name, and the title comes
      from the title table. */
  lemma GeneratedProfileFacts(url: string, d: Draw, pool: seq<string>)
    requires ValidDraw(d, |pool|)
    ensures GeneratedProfile(url, d, pool).Some? <==> ProfileName(url).Some?
    ensures GeneratedProfile(url, d, pool).Some? ==>
      var r := GeneratedProfile(url, d, pool).value;
      && r.name == ProfileName(url).value
      && r.url == url
      && r.avatar == Avatar(r.name)
      && r.title in JobTitles
  {
    var t := d.titleIndex;
    assert JobTitles[t] in JobTitles;
  }

  /** While the skills pool is an arrangement of a table of at least three
      distinct skills (the skills table, see `SkillsPoolDistinct`), every
      record carries three distinct entries of that table, and the pool stays
      an arrangement of it. */
  lemma GeneratedSkills(url: string, d: Draw, pool: seq<string>, table: seq<string>)
    requires multiset(pool) == multiset(table)
    requires Distinct(table) && |table| >= SkillsPerProfile
    requires ValidDraw(d, |pool|) && Shuffles(d, |pool|)
    ensures multiset(PoolAfter(url, d, pool)) == multiset(table)
    ensures GeneratedProfile(url, d, pool).Some? ==>
      var r := GeneratedProfile(url, d, pool).value;
      && |r.skills| == SkillsPerProfile
      && Distinct(r.skills)
      && (forall k :: 0 <= k < |r.skills| ==> r.skills[k] in table)
  {
    RecordSkills(d, pool, table);
  }

  /** For any table of at least three distinct skills and a pool that is an
      arrangement of it: the draw leaves the pool an arrangement of the table,
      and the record's skills are three distinct entries of the table. */
  lemma RecordSkills(d: Draw, pool: seq<string>, table: seq<string>)
    requires multiset(pool) == multiset(table)
    requires Distinct(table) && |table| >= SkillsPerProfile
    requires ValidDraw(d, |pool|) && Shuffles(d, |pool|)
    ensures multiset(Permute(pool, d.order)) == multiset(table)
    ensures var skills := TakeSkills(Permute(pool, d.order));
      && |skills| == SkillsPerProfile
      && Distinct(skills)
      && (forall k :: 0 <= k < |skills| ==> skills[k] in table)
  {
    PermuteIsPermutation(pool, d.order);
    SkillsOfArrangement(Permute(pool, d.order), table);
  }

  /** `generateProfileData(url)`, with the skills pool as the array it sorts. */
  method GenerateProfileData(pool: array<string>, url: string, d: Draw) returns (r: Option<LinkedInProfile>)
    requires ValidDraw(d, pool.Length)
    modifies pool
    ensures r == GeneratedProfile(url, d, old(pool[..]))
    ensures pool[..] == PoolAfter(url, d, old(pool[..]))
  {
    var name := ProfileName(url);
    if name.None? {
      return None;
    }
    var title := JobTitles[d.titleIndex];
    SortPool(pool, d.order);
    var skills := TakeSkills(pool[..]);
    r := Some(LinkedInProfile(d.id, name.value, title, skills, url, Avatar(name.value)));
  }
}
