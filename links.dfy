/**
 * `check_for_link`, `LinkData.from_list` and the Location step of `get_video_id`.
 *
 * Each of the four `re.search` patterns is written out as a matcher over `string`
 * that follows Python's backtracking order: `re.search` tries start positions
 * from left to right; at one position an optional group or an alternation is an
 * ordered choice (the first option whose continuation matches wins), and a
 * greedy repeat tries its longest count first and backs off one at a time.
 */
module Links {
  import opened Wrappers
  import opened Text

  /** `VideoIdType`; the two Douyin kinds exist but `check_for_link` never produces them. */
  datatype VideoIdType = Long | Short | Medium | Fyp | DouyinLong | DouyinShort

  /** `LinkData`: the id is the captured text of the id group. */
  datatype LinkData = LinkData(kind: VideoIdType, id: string, url: string, douyin: bool)

  /** One item of the list handed to `LinkData.from_list`. */
  datatype LinkArg = KindArg(kind: VideoIdType) | TextArg(text: string) | FlagArg(flag: bool)

  /** The items sit where `LinkData`'s fields expect them: a kind, two texts, an optional flag. */
  predicate ArgsFitFields(link: seq<LinkArg>)
    requires |link| == 3 || |link| == 4
  {
    link[0].KindArg? && link[1].TextArg? && link[2].TextArg? && (|link| == 4 ==> link[3].FlagArg?)
  }

  /** `LinkData.from_list`: a ValueError unless the list has 3 or 4 items, otherwise
      `cls(*link)`, which stores the items in field order; `douyin` defaults to false.
      The constructor checks no types, so only lists whose items fit the fields are
      taken here. */
  function FromList(link: seq<LinkArg>): (r: Result<LinkData, string>)
    requires |link| == 3 || |link| == 4 ==> ArgsFitFields(link)
    ensures r.Ok? <==> |link| == 3 || |link| == 4
    ensures r.Err? ==> r.error == "Invalid link"
    ensures r.Ok? ==> r.value.kind == link[0].kind && r.value.id == link[1].text && r.value.url == link[2].text
    ensures r.Ok? ==> r.value.douyin == (|link| == 4 && link[3].flag)
  {
    if |link| != 3 && |link| != 4 then Err("Invalid link")
    else Ok(LinkData(link[0].kind, link[1].text, link[2].text, |link| == 4 && link[3].flag))
  }

  // ------------------------------------------------------------ regex pieces

  datatype CharClass = Digit | Word | NotNewline

  predicate InClass(c: char, cls: CharClass) {
    match cls
    case Digit => IsDigit(c)
    case Word => IsWordChar(c)
    case NotNewline => c != '\n'
  }

  /** How many characters of class `cls` follow position `p`. */
  function Run(s: string, p: nat, cls: CharClass): (n: nat)
    requires p <= |s|
    ensures p + n <= |s|
    ensures forall k :: p <= k < p + n ==> InClass(s[k], cls)
    ensures p + n < |s| ==> !InClass(s[p + n], cls)
    decreases |s| - p
  {
    if p < |s| && InClass(s[p], cls) then 1 + Run(s, p + 1, cls) else 0
  }

  /** A greedy `cls{lo,hi}` that ends the pattern: it takes as many as it can, up to `hi`. */
  function Greedy(s: string, p: nat, cls: CharClass, lo: nat, hi: nat): (r: Option<nat>)
    requires p <= |s| && lo <= hi
    ensures r.Some? ==> lo <= r.value <= hi && p + r.value <= |s|
    ensures r.Some? ==> forall k :: p <= k < p + r.value ==> InClass(s[k], cls)
    ensures r.Some? ==> r.value == hi || p + r.value == |s| || !InClass(s[p + r.value], cls)
    ensures r.None? ==> Run(s, p, cls) < lo
  {
    var n := Run(s, p, cls);
    var taken := if n < hi then n else hi;
    if taken >= lo then Some(taken) else None
  }

  datatype Pattern = LongPattern | ShortPattern | MediumPattern | FypPattern

  /** What the id group of each pattern admits. */
  predicate IdShape(pat: Pattern, id: string) {
    match pat
    case LongPattern => 15 <= |id| <= 30 && AllDigits(id)
    case MediumPattern => 15 <= |id| <= 30 && AllDigits(id)
    case FypPattern => 5 <= |id| <= 30 && AllDigits(id)
    case ShortPattern => 5 <= |id| <= 15 && forall k :: 0 <= k < |id| ==> IsWordChar(id[k])
  }

  /** Where the id group of a pattern sits: `s[idStart..end]`, at the end of the match. */
  datatype Span = Span(idStart: nat, end: nat)

  predicate SpanFits(pat: Pattern, s: string, p: nat, sp: Span) {
    p <= sp.idStart <= sp.end <= |s| && IdShape(pat, s[sp.idStart..sp.end])
  }

  /** The id group closing every pattern: greedy digits or word characters. */
  function IdGroup(pat: Pattern, s: string, p: nat): (r: Option<Span>)
    requires p <= |s|
    ensures r.Some? ==> SpanFits(pat, s, p, r.value) && r.value.idStart == p
  {
    var g := match pat
      case LongPattern => Greedy(s, p, Digit, 15, 30)
      case MediumPattern => Greedy(s, p, Digit, 15, 30)
      case FypPattern => Greedy(s, p, Digit, 5, 30)
      case ShortPattern => Greedy(s, p, Word, 5, 15);
    if g.Some? then Some(Span(p, p + g.value)) else None
  }

  // ----------------------------------------------------------------- long form

  /** `(@.{1,24})\/video\/(?P<id>\d{15,30})` with `@` already consumed at `r - 1`:
      the greedy `.{1,24}` tries `k` characters, then `k - 1`, down to 1. */
  function LongTail(s: string, r: nat, k: nat): (res: Option<Span>)
    requires r + k <= |s|
    ensures res.Some? ==> SpanFits(LongPattern, s, r, res.value)
    decreases k
  {
    if k == 0 then None
    else if StartsAt(s, r + k, "/video/") && IdGroup(LongPattern, s, r + k + 7).Some? then
      IdGroup(LongPattern, s, r + k + 7)
    else LongTail(s, r, k - 1)
  }

  /** `tiktok\.com\/(@.{1,24})\/video\/(?P<id>\d{15,30})` at `q`. */
  function LongHost(s: string, q: nat): (res: Option<Span>)
    ensures res.Some? ==> q + 1 < |s| && s[q] == 't' && s[q + 1] == 'i' && SpanFits(LongPattern, s, q, res.value)
  {
    if StartsAt(s, q, "tiktok.com/@") then
      var r := q + 12;
      var n := Run(s, r, NotNewline);
      LongTail(s, r, if n < 24 then n else 24)
    else None
  }

  /** `(www\.)?tiktok\.com\/…` at `p`: the optional group is tried present, then absent. */
  function LongBody(s: string, p: nat): (res: Option<Span>)
    ensures res.Some? ==> p + 1 < |s| && ((s[p] == 'w' && s[p + 1] == 'w') || (s[p] == 't' && s[p + 1] == 'i'))
    ensures res.Some? ==> SpanFits(LongPattern, s, p, res.value)
  {
    if StartsAt(s, p, "www.") && LongHost(s, p + 4).Some? then LongHost(s, p + 4)
    else LongHost(s, p)
  }

  // ---------------------------------------------------------------- short form

  /** `((?!ww)\w{2})\.tiktok.com\/(?P<short_id>\w{5,15})` at `p`; the `.` between
      `tiktok` and `com` is unescaped in the source and so matches any character but a newline. */
  function ShortBody(s: string, p: nat): (res: Option<Span>)
    ensures res.Some? ==> p + 2 < |s| && IsWordChar(s[p]) && IsWordChar(s[p + 1]) && s[p + 2] == '.'
    ensures res.Some? ==> SpanFits(ShortPattern, s, p, res.value)
  {
    if p + 14 <= |s| && IsWordChar(s[p]) && IsWordChar(s[p + 1]) && !(s[p] == 'w' && s[p + 1] == 'w')
       && s[p + 2] == '.' && StartsAt(s, p + 3, "tiktok") && s[p + 9] != '\n' && StartsAt(s, p + 10, "com/")
    then IdGroup(ShortPattern, s, p + 14)
    else None
  }

  // --------------------------------------------------------------- medium form

  /** `m\.tiktok\.com\/v\/(?P<id>\d{15,30})` at `p`. */
  function MediumBody(s: string, p: nat): (res: Option<Span>)
    ensures res.Some? ==> p + 1 < |s| && s[p] == 'm' && s[p + 1] == '.'
    ensures res.Some? ==> SpanFits(MediumPattern, s, p, res.value)
  {
    if StartsAt(s, p, "m.tiktok.com/v/") then IdGroup(MediumPattern, s, p + 15) else None
  }

  // ---------------------------------------------------------- for-you-page form

  /** `(.*)item_id=(?P<item_id>\d{5,30})` at `r`: the greedy `.*` tries `k` characters, then fewer, down to none. */
  function FypTail(s: string, r: nat, k: nat): (res: Option<Span>)
    requires r + k <= |s|
    ensures res.Some? ==> SpanFits(FypPattern, s, r, res.value)
    decreases k
  {
    if StartsAt(s, r + k, "item_id=") && IdGroup(FypPattern, s, r + k + 8).Some? then
      IdGroup(FypPattern, s, r + k + 8)
    else if k == 0 then None
    else FypTail(s, r, k - 1)
  }

  /** `\.tiktok.com\/(.*)item_id=…` at `q` (again an unescaped `.` before `com`). */
  function FypHost(s: string, q: nat): (res: Option<Span>)
    ensures res.Some? ==> q + 1 < |s| && s[q] == '.' && SpanFits(FypPattern, s, q, res.value)
  {
    if q + 12 <= |s| && s[q] == '.' && StartsAt(s, q + 1, "tiktok") && s[q + 7] != '\n' && StartsAt(s, q + 8, "com/") then
      var r := q + 12;
      FypTail(s, r, Run(s, r, NotNewline))
    else None
  }

  /** `(www)?\.tiktok.com\/…` at `p`. */
  function FypBody(s: string, p: nat): (res: Option<Span>)
    ensures res.Some? ==> p + 1 < |s| && (s[p] == '.' || (s[p] == 'w' && s[p + 1] == 'w'))
    ensures res.Some? ==> SpanFits(FypPattern, s, p, res.value)
  {
    if StartsAt(s, p, "www") && FypHost(s, p + 3).Some? then FypHost(s, p + 3)
    else FypHost(s, p)
  }

  // ------------------------------------------------------------- whole patterns

  /** The first characters any pattern body needs: `ww` (`www`), `ti` (`tiktok`),
      `m.`, a `.`, or two word characters and a `.` (the short form's subdomain). */
  predicate BodyOpening(s: string, p: nat) {
    p + 1 < |s| &&
    (s[p] == '.' || (s[p] == 'w' && s[p + 1] == 'w') || (s[p] == 't' && s[p + 1] == 'i')
     || (s[p] == 'm' && s[p + 1] == '.')
     || (p + 2 < |s| && IsWordChar(s[p]) && IsWordChar(s[p + 1]) && s[p + 2] == '.'))
  }

  /** Each pattern after its leading `(?P<http>http:|https:\/\/)?` group. */
  function Body(pat: Pattern, s: string, p: nat): (res: Option<Span>)
    ensures res.Some? ==> BodyOpening(s, p) && SpanFits(pat, s, p, res.value)
  {
    match pat
    case LongPattern => LongBody(s, p)
    case ShortPattern => ShortBody(s, p)
    case MediumPattern => MediumBody(s, p)
    case FypPattern => FypBody(s, p)
  }

  /** A match of a whole pattern: `s[start..end]` is `group(0)`, `scheme` says whether
      the `http` group took part, and `s[idStart..end]` is the id group. */
  datatype Match = Match(start: nat, end: nat, scheme: bool, idStart: nat)

  predicate MatchFits(pat: Pattern, s: string, m: Match) {
    m.start <= m.idStart <= m.end <= |s| && IdShape(pat, s[m.idStart..m.end])
  }

  /** The pattern anchored at `i`: the `http` group tries `http:`, then `https://`, then absence. */
  function MatchAt(pat: Pattern, s: string, i: nat): (r: Option<Match>)
    ensures r.Some? ==> r.value.start == i && MatchFits(pat, s, r.value)
  {
    if StartsAt(s, i, "http:") && Body(pat, s, i + 5).Some? then
      var sp := Body(pat, s, i + 5).value;
      Some(Match(i, sp.end, true, sp.idStart))
    else if StartsAt(s, i, "https://") && Body(pat, s, i + 8).Some? then
      var sp := Body(pat, s, i + 8).value;
      Some(Match(i, sp.end, true, sp.idStart))
    else if Body(pat, s, i).Some? then
      var sp := Body(pat, s, i).value;
      Some(Match(i, sp.end, false, sp.idStart))
    else None
  }

  /** Whether the pattern matches at each start position. */
  function Matches(pat: Pattern, s: string): nat -> bool {
    (j: nat) => MatchAt(pat, s, j).Some?
  }

  /** `f` holds at no position from `i` up to, not including, `k`. */
  predicate NoneIn(f: nat -> bool, i: nat, k: nat)
    decreases k - i
  {
    i >= k || (!f(i) && NoneIn(f, i + 1, k))
  }

  /** `re.search(pat, s)` from position `i` on: the leftmost start at which the pattern matches. */
  function Search(pat: Pattern, s: string, i: nat): (r: Option<Match>)
    ensures r.Some? ==> i <= r.value.start <= |s| && MatchFits(pat, s, r.value)
    ensures r.Some? ==> MatchAt(pat, s, r.value.start) == r
    ensures r.Some? ==> NoneIn(Matches(pat, s), i, r.value.start)
    ensures r.None? ==> NoneIn(Matches(pat, s), i, |s| + 1)
    decreases |s| + 1 - i
  {
    if i > |s| then None
    else
      var here := MatchAt(pat, s, i);
      if here.Some? then here else Search(pat, s, i + 1)
  }

  /** Holding nowhere in a range means not holding at any position of it. */
  lemma {:induction false} NoneInAt(f: nat -> bool, i: nat, k: nat, j: nat)
    requires NoneIn(f, i, k) && i <= j < k
    ensures !f(j)
    decreases j - i
  {
    if j > i {
      NoneInAt(f, i + 1, k, j);
    }
  }

  /** `re.search` from a position where the pattern matches returns that match. */
  lemma SearchStopsAtMatch(pat: Pattern, s: string, i: nat)
    requires MatchAt(pat, s, i).Some?
    ensures Search(pat, s, i) == MatchAt(pat, s, i)
  {
    assert i <= |s|;
  }

  /** `re.search` passes over a position where the pattern does not match. */
  lemma SearchSkipsNoMatch(pat: Pattern, s: string, i: nat)
    requires i <= |s| && MatchAt(pat, s, i).None?
    ensures Search(pat, s, i) == Search(pat, s, i + 1)
  {
  }

  // ------------------------------------------------------------- check_for_link

  function PatternOf(kind: VideoIdType): Pattern {
    match kind
    case Long => LongPattern
    case Short => ShortPattern
    case Medium => MediumPattern
    case _ => FypPattern
  }

  /** The branch of `check_for_link` for one pattern: `https://` is put in front of
      `group(0)` when the `http` group did not take part. */
  function Describe(kind: VideoIdType, s: string, m: Match): (link: LinkData)
    requires MatchFits(PatternOf(kind), s, m)
    ensures link.kind == kind && !link.douyin && IdShape(PatternOf(kind), link.id)
  {
    var whole := s[m.start..m.end];
    var url := if m.scheme then whole else "https://" + whole;
    FromList([KindArg(kind), TextArg(s[m.idStart..m.end]), TextArg(url)]).Extract()
  }

  /** `check_for_link(content)`. */
  function CheckForLink(content: string): (r: Option<LinkData>)
    ensures r.Some? ==> !r.value.douyin && !r.value.kind.DouyinLong? && !r.value.kind.DouyinShort?
    ensures r.Some? ==> IdShape(PatternOf(r.value.kind), r.value.id)
  {
    var long := Search(LongPattern, content, 0);
    var short := Search(ShortPattern, content, 0);
    var medium := Search(MediumPattern, content, 0);
    var fyp := Search(FypPattern, content, 0);
    if long.Some? then Some(Describe(Long, content, long.value))
    else if short.Some? then Some(Describe(Short, content, short.value))
    else if medium.Some? then Some(Describe(Medium, content, medium.value))
    else if fyp.Some? then Some(Describe(Fyp, content, fyp.value))
    else None
  }

  /** The Location step of `get_video_id`: the id of the link in the `Location`
      header, or `None` when there is no header or it holds no link. */
  function GetVideoId(location: Option<string>): (r: Option<string>)
    ensures r.Some? <==> location.Some? && CheckForLink(location.value).Some?
    ensures r.Some? ==> r.value == CheckForLink(location.value).value.id
  {
    if location.Some? && location.value != "" then
      match CheckForLink(location.value)
      case Some(link) => Some(link.id)
      case None => None
    else None
  }

  // --------------------------------------------------------------------- lemmas

  /** The pattern matches somewhere in `s` (at one of the positions `re.search` tries). */
  predicate Occurs(pat: Pattern, s: string) {
    exists i :: 0 <= i <= |s| && MatchAt(pat, s, i).Some?
  }

  lemma SearchFindsOccurrence(pat: Pattern, s: string)
    ensures Search(pat, s, 0).Some? <==> Occurs(pat, s)
  {
    if Search(pat, s, 0).Some? {
      var i := Search(pat, s, 0).value.start;
      assert MatchAt(pat, s, i).Some?;
    } else if Occurs(pat, s) {
      var i :| 0 <= i <= |s| && MatchAt(pat, s, i).Some?;
      NoneInAt(Matches(pat, s), 0, |s| + 1, i);
    }
  }

  /** The fixed precedence of `check_for_link`: long, then short, then medium, then
      for-you-page, wherever each occurs in the text; `None` when none occurs. */
  lemma CheckForLinkPrecedence(s: string)
    ensures CheckForLink(s).None? <==>
      !Occurs(LongPattern, s) && !Occurs(ShortPattern, s) && !Occurs(MediumPattern, s) && !Occurs(FypPattern, s)
    ensures CheckForLink(s).Some? && CheckForLink(s).value.kind == Long <==> Occurs(LongPattern, s)
    ensures CheckForLink(s).Some? && CheckForLink(s).value.kind == Short <==>
      !Occurs(LongPattern, s) && Occurs(ShortPattern, s)
    ensures CheckForLink(s).Some? && CheckForLink(s).value.kind == Medium <==>
      !Occurs(LongPattern, s) && !Occurs(ShortPattern, s) && Occurs(MediumPattern, s)
    ensures CheckForLink(s).Some? && CheckForLink(s).value.kind == Fyp <==>
      !Occurs(LongPattern, s) && !Occurs(ShortPattern, s) && !Occurs(MediumPattern, s) && Occurs(FypPattern, s)
  {
    SearchFindsOccurrence(LongPattern, s);
    SearchFindsOccurrence(ShortPattern, s);
    SearchFindsOccurrence(MediumPattern, s);
    SearchFindsOccurrence(FypPattern, s);
  }

  /** What `Describe` builds from a match. */
  lemma DescribeShape(kind: VideoIdType, s: string, m: Match)
    requires MatchFits(PatternOf(kind), s, m)
    ensures var link := Describe(kind, s, m);
      && link.url == (if m.scheme then s[m.start..m.end] else "https://" + s[m.start..m.end])
      && link.id == s[m.idStart..m.end]
      && |link.id| <= |link.url| && link.url[|link.url| - |link.id|..] == link.id
  {
    var whole := s[m.start..m.end];
    var n := m.end - m.idStart;
    assert whole[|whole| - n..] == s[m.idStart..m.end];
    if !m.scheme {
      var url := "https://" + whole;
      assert url[|url| - n..] == whole[|whole| - n..];
    }
  }

  /** A found link is `Describe` of the leftmost match of its own kind's pattern. */
  lemma CheckForLinkIsDescribe(s: string)
    requires CheckForLink(s).Some?
    ensures var link := CheckForLink(s).value;
      && Search(PatternOf(link.kind), s, 0).Some?
      && link == Describe(link.kind, s, Search(PatternOf(link.kind), s, 0).value)
  {
  }

  /** The URL and id of a found link: the leftmost match of the winning pattern,
      verbatim when the `http` group took part and behind `https://` otherwise;
      the id is the id group, which ends the URL. */
  lemma CheckForLinkUrl(s: string)
    requires CheckForLink(s).Some?
    ensures var link := CheckForLink(s).value;
      && Search(PatternOf(link.kind), s, 0).Some?
      && var m := Search(PatternOf(link.kind), s, 0).value;
      && link.url == (if m.scheme then s[m.start..m.end] else "https://" + s[m.start..m.end])
      && link.id == s[m.idStart..m.end]
      && |link.id| <= |link.url| && link.url[|link.url| - |link.id|..] == link.id
  {
    var link := CheckForLink(s).value;
    CheckForLinkIsDescribe(s);
    DescribeShape(link.kind, s, Search(PatternOf(link.kind), s, 0).value);
  }

  /** What the `http` group consumed when it took part in a match `s[i..end]`:
      `https://`, or `http:` followed by something other than `/`. */
  predicate SchemeOpens(s: string, i: nat, end: nat) {
    end <= |s| &&
    ((StartsAt(s, i, "http:") && i + 5 < end && s[i + 5] != '/') || (StartsAt(s, i, "https://") && i + 8 <= end))
  }

  /** Where the scheme group took part, it began `https://`, or `http:` followed by
      something other than `/`. */
  lemma MatchAtScheme(pat: Pattern, s: string, i: nat)
    requires MatchAt(pat, s, i).Some? && MatchAt(pat, s, i).value.scheme
    ensures SchemeOpens(s, i, MatchAt(pat, s, i).value.end)
  {
  }

  /** No pattern body starts at `http`: each needs `www`, `tiktok`, `m.`, a `.`, or
      two word characters followed by a `.`. */
  lemma BodyNotAtHttp(pat: Pattern, s: string, p: nat)
    ensures StartsAt(s, p, "http") ==> Body(pat, s, p).None?
  {
    if StartsAt(s, p, "http") {
      StartsAtChars(s, p, "http");
      assert !BodyOpening(s, p);
    }
  }

  /** No pattern matches at a `http://`: the `http:` option leaves `//` that no pattern
      body accepts, `https://` needs an `s`, and without the group the body needs a host. */
  lemma PlainHttpNeverMatches(pat: Pattern, s: string, i: nat)
    requires StartsAt(s, i, "http://")
    ensures MatchAt(pat, s, i).None?
  {
    StartsAtChars(s, i, "http://");
    NotStartsAtByChar(s, i, "https://", 4);
    assert !BodyOpening(s, i + 5);
    assert !BodyOpening(s, i);
  }

  /** No pattern matches inside the `http://` that opens `s`. */
  lemma NothingInsideHttpScheme(pat: Pattern, s: string, j: nat)
    requires StartsAt(s, 0, "http://") && 0 < j < 7
    ensures MatchAt(pat, s, j).None?
  {
    StartsAtChars(s, 0, "http://");
    NotStartsAtByChar(s, j, "http:", 0);
    NotStartsAtByChar(s, j, "https://", 0);
    assert !BodyOpening(s, j);
  }

  /** The quirk of the `http` group: in text that starts `http://` followed by a link,
      the group cannot take part, the match starts at the host, and `check_for_link`
      puts `https://` in front of it. */
  lemma HttpSchemeIsUpgraded(pat: Pattern, s: string)
    requires StartsAt(s, 0, "http://") && Body(pat, s, 7).Some?
    ensures Search(pat, s, 0) == Some(Match(7, Body(pat, s, 7).value.end, false, Body(pat, s, 7).value.idStart))
  {
    var sp := Body(pat, s, 7).value;
    BodyNotAtHttp(pat, s, 7);
    StartsAtPrefix(s, 7, "http:", 4);
    StartsAtPrefix(s, 7, "https://", 4);
    assert MatchAt(pat, s, 7) == Some(Match(7, sp.end, false, sp.idStart));
    SearchStopsAtMatch(pat, s, 7);
    var j := 7;
    while j > 0
      invariant 0 <= j <= 7
      invariant Search(pat, s, j) == Search(pat, s, 7)
    {
      j := j - 1;
      if j == 0 {
        PlainHttpNeverMatches(pat, s, 0);
      } else {
        NothingInsideHttpScheme(pat, s, j);
      }
      SearchSkipsNoMatch(pat, s, j);
    }
  }

  /** The URL built from one match is scheme-qualified and never a plain `http://`. */
  lemma DescribedUrlIsQualified(kind: VideoIdType, s: string, m: Match)
    requires MatchFits(PatternOf(kind), s, m) && (m.scheme ==> SchemeOpens(s, m.start, m.end))
    ensures var url := Describe(kind, s, m).url;
      (StartsAt(url, 0, "https://") || (StartsAt(url, 0, "http:") && |url| > 5 && url[5] != '/'))
      && !StartsAt(url, 0, "http://")
  {
    DescribeShape(kind, s, m);
    var url := Describe(kind, s, m).url;
    if m.scheme {
      if StartsAt(s, m.start, "https://") {
        assert url[..8] == s[m.start..m.start + 8];
        NotStartsAtByChar(url, 0, "http://", 4);
      } else {
        assert url[..5] == s[m.start..m.start + 5];
        assert url[5] == s[m.start + 5];
        NotStartsAtByChar(url, 0, "http://", 5);
      }
    } else {
      assert url[..8] == "https://";
      NotStartsAtByChar(url, 0, "http://", 4);
    }
  }

  /** Every URL `check_for_link` returns is scheme-qualified, and never a plain `http://`. */
  lemma CheckForLinkUrlIsQualified(s: string)
    requires CheckForLink(s).Some?
    ensures var url := CheckForLink(s).value.url;
      (StartsAt(url, 0, "https://") || (StartsAt(url, 0, "http:") && |url| > 5 && url[5] != '/'))
      && !StartsAt(url, 0, "http://")
  {
    var link := CheckForLink(s).value;
    CheckForLinkIsDescribe(s);
    var m := Search(PatternOf(link.kind), s, 0).value;
    if m.scheme {
      MatchAtScheme(PatternOf(link.kind), s, m.start);
    }
    DescribedUrlIsQualified(link.kind, s, m);
  }

  /** `get_video_id` on a Location holding a long-form link returns its 15 to 30 digit id. */
  lemma GetVideoIdOfLongLocation(location: string)
    requires Occurs(LongPattern, location)
    ensures var r := GetVideoId(Some(location));
      r.Some? && 15 <= |r.value| <= 30 && AllDigits(r.value)
      && r.value == CheckForLink(location).value.id
  {
    CheckForLinkPrecedence(location);
  }
}
