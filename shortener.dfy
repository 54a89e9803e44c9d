/**
 * The short-URL table behind `create_short_url` (`tiktoker/utils/__init__.py`) and its
 * document schema (`tiktoker/db/models/shortener.py`): entries keyed by `video_uri`,
 * with `video_uri` and `slug` each unique. Slugs are the URL-safe base64 encoding
 * (RFC 4648 section 5) of six random bytes, which the model takes as an oracle input.
 */
module Shortener {
  import opened Wrappers

  newtype byte = x: int | 0 <= x < 256

  /** The output of `urandom(6)`. */
  type Random6 = s: seq<byte> | |s| == 6 witness [0, 0, 0, 0, 0, 0]

  // ------------------------------------------------------------- URL-safe base64

  /** The URL-safe base64 alphabet: A-Z, a-z, 0-9, '-' and '_'. */
  predicate IsSlugChar(c: char) {
    'A' <= c <= 'Z' || 'a' <= c <= 'z' || '0' <= c <= '9' || c == '-' || c == '_'
  }

  function SextetChar(v: nat): (c: char)
    requires v < 64
    ensures IsSlugChar(c)
  {
    if v < 26 then (('A' as int) + v) as char
    else if v < 52 then (('a' as int) + v - 26) as char
    else if v < 62 then (('0' as int) + v - 52) as char
    else if v == 62 then '-'
    else '_'
  }

  function SextetValue(c: char): (v: nat)
    requires IsSlugChar(c)
    ensures v < 64
  {
    if 'A' <= c <= 'Z' then c as int - 'A' as int
    else if 'a' <= c <= 'z' then c as int - 'a' as int + 26
    else if '0' <= c <= '9' then c as int - '0' as int + 52
    else if c == '-' then 62
    else 63
  }

  lemma SextetRoundTrip(v: nat)
    requires v < 64
    ensures SextetValue(SextetChar(v)) == v
  {
  }

  /** Three bytes as four characters, most significant bits first. */
  function EncodeGroup(a: byte, b: byte, c: byte): (s: string)
    ensures |s| == 4 && forall i :: 0 <= i < 4 ==> IsSlugChar(s[i])
  {
    var x, y, z := a as int, b as int, c as int;
    [SextetChar(x / 4), SextetChar((x % 4) * 16 + y / 16), SextetChar((y % 16) * 4 + z / 64), SextetChar(z % 64)]
  }

  /** `urlsafe_b64encode(bytes).decode()` for six bytes: eight characters, no padding. */
  function Slug(r: Random6): (s: string)
    ensures |s| == 8 && forall i :: 0 <= i < 8 ==> IsSlugChar(s[i])
  {
    EncodeGroup(r[0], r[1], r[2]) + EncodeGroup(r[3], r[4], r[5])
  }

  /** Four characters back to three bytes. */
  function DecodeGroup(s: string): seq<byte>
    requires |s| == 4 && forall i :: 0 <= i < 4 ==> IsSlugChar(s[i])
  {
    var p, q, t, u := SextetValue(s[0]), SextetValue(s[1]), SextetValue(s[2]), SextetValue(s[3]);
    [(p * 4 + q / 16) as byte, ((q % 16) * 16 + t / 4) as byte, ((t % 4) * 64 + u) as byte]
  }

  function DecodeSlug(s: string): seq<byte>
    requires |s| == 8 && forall i :: 0 <= i < 8 ==> IsSlugChar(s[i])
  {
    DecodeGroup(s[..4]) + DecodeGroup(s[4..])
  }

  lemma GroupRoundTrip(a: byte, b: byte, c: byte)
    ensures DecodeGroup(EncodeGroup(a, b, c)) == [a, b, c]
  {
    var x, y, z := a as int, b as int, c as int;
    SextetRoundTrip(x / 4);
    SextetRoundTrip((x % 4) * 16 + y / 16);
    SextetRoundTrip((y % 16) * 4 + z / 64);
    SextetRoundTrip(z % 64);
  }

  /** Decoding a slug gives back the random bytes it was made from. */
  lemma SlugRoundTrip(r: Random6)
    ensures DecodeSlug(Slug(r)) == r
  {
    var g1, g2 := EncodeGroup(r[0], r[1], r[2]), EncodeGroup(r[3], r[4], r[5]);
    SlugGroups(r);
    DecodeGroups(g1, g2);
    GroupRoundTrip(r[0], r[1], r[2]);
    GroupRoundTrip(r[3], r[4], r[5]);
    SixBytes(r);
  }

  lemma SlugGroups(r: Random6)
    ensures Slug(r) == EncodeGroup(r[0], r[1], r[2]) + EncodeGroup(r[3], r[4], r[5])
  {
  }

  lemma SixBytes(r: Random6)
    ensures r == [r[0], r[1], r[2]] + [r[3], r[4], r[5]]
  {
  }

  lemma DecodeGroups(g1: string, g2: string)
    requires |g1| == 4 && forall i :: 0 <= i < 4 ==> IsSlugChar(g1[i])
    requires |g2| == 4 && forall i :: 0 <= i < 4 ==> IsSlugChar(g2[i])
    ensures DecodeSlug(g1 + g2) == DecodeGroup(g1) + DecodeGroup(g2)
  {
    assert (g1 + g2)[..4] == g1 && (g1 + g2)[4..] == g2;
  }

  /** Different random draws give different slugs. */
  lemma SlugInjective(r1: Random6, r2: Random6)
    ensures Slug(r1) == Slug(r2) ==> r1 == r2
  {
    SlugRoundTrip(r1);
    SlugRoundTrip(r2);
  }

  // -------------------------------------------------------------------- the table

  /** A `Shortener` document. */
  datatype Entry = Entry(videoUri: string, slug: string, shortenedUrl: string)

  const BaseUrl: string := "https://m.tiktoker.win/"

  function ShortUrlFor(slug: string): string {
    BaseUrl + slug
  }

  type Table = map<string, Entry>

  /** Some entry already uses `slug`: `Shortener.find_one({"slug": slug}) != None`. */
  predicate SlugTaken(m: Table, slug: string) {
    exists u :: u in m && m[u].slug == slug
  }

  /** Each entry sits under its own `video_uri`, no two entries share a slug, and every
      stored URL is the base URL followed by the slug. */
  predicate ValidTable(m: Table) {
    && (forall u :: u in m ==> m[u].videoUri == u && m[u].shortenedUrl == ShortUrlFor(m[u].slug))
    && (forall u, v :: u in m && v in m && m[u].slug == m[v].slug ==> u == v)
  }

  /** `shortener.save()` of a new document: the unique indexes reject a second entry
      for the same `video_uri` or the same `slug` with DuplicateKeyError. */
  function SaveTo(m: Table, e: Entry): (Table, bool) {
    if e.videoUri !in m && !SlugTaken(m, e.slug) then (m[e.videoUri := e], true) else (m, false)
  }

  /** A save either adds exactly the new entry or changes nothing, and keeps both
      indexes unique. */
  lemma SaveKeepsValid(m: Table, e: Entry)
    requires ValidTable(m) && e.shortenedUrl == ShortUrlFor(e.slug)
    ensures ValidTable(SaveTo(m, e).0)
    ensures SaveTo(m, e).1 ==> e.videoUri in SaveTo(m, e).0 && SaveTo(m, e).0[e.videoUri] == e
    ensures SaveTo(m, e).1 ==> SaveTo(m, e).0.Keys == m.Keys + {e.videoUri}
    ensures !SaveTo(m, e).1 ==> SaveTo(m, e).0 == m
  {
    if SaveTo(m, e).1 {
      assert forall u :: u in m ==> m[u].slug != e.slug;
    }
  }

  /** The first draw whose slug is free: the slug loop of `create_short_url`. */
  function FirstFree(m: Table, slugs: seq<string>, i: nat): (k: nat)
    requires i <= |slugs| && exists j :: i <= j < |slugs| && !SlugTaken(m, slugs[j])
    ensures i <= k < |slugs| && !SlugTaken(m, slugs[k])
    ensures forall j :: i <= j < k ==> SlugTaken(m, slugs[j])
    decreases |slugs| - i
  {
    if !SlugTaken(m, slugs[i]) then i else FirstFree(m, slugs, i + 1)
  }

  predicate HasFreeDraw(m: Table, slugs: seq<string>) {
    exists j :: 0 <= j < |slugs| && !SlugTaken(m, slugs[j])
  }

  /** A concurrent caller's save that lands between the slug loop and this caller's own
      save; it goes through the same unique indexes. */
  predicate WellFormedRival(rival: Option<Entry>) {
    rival.Some? ==> rival.value.shortenedUrl == ShortUrlFor(rival.value.slug)
  }

  /** The freshly drawn slug of a new `video_uri`. */
  function FreshSlug(m: Table, slugs: seq<string>): string
    requires HasFreeDraw(m, slugs)
  {
    slugs[FirstFree(m, slugs, 0)]
  }

  /** What `create_short_url(video_uri)` returns and leaves in the table, as written,
      given the successive slugs it draws: the existing entry's URL; otherwise the URL
      of a new entry, which is returned even when its save was rejected. */
  function CreateOutcome(m: Table, videoUri: string, slugs: seq<string>, rival: Option<Entry>): (string, Table)
    requires videoUri !in m ==> HasFreeDraw(m, slugs)
  {
    if videoUri in m then (m[videoUri].shortenedUrl, m)
    else
      var slug := FreshSlug(m, slugs);
      var ours := Entry(videoUri, slug, ShortUrlFor(slug));
      var m1 := if rival.Some? then SaveTo(m, rival.value).0 else m;
      (ours.shortenedUrl, SaveTo(m1, ours).0)
  }

  lemma ShortUrlInjective(a: string, b: string)
    ensures ShortUrlFor(a) == ShortUrlFor(b) ==> a == b
  {
    if ShortUrlFor(a) == ShortUrlFor(b) {
      assert a == ShortUrlFor(a)[|BaseUrl|..];
      assert b == ShortUrlFor(b)[|BaseUrl|..];
    }
  }

  /** The table stays valid. An existing entry is returned and nothing is written.
      For a new `video_uri` the URL is the base URL plus the first drawn slug that no
      entry uses, and, without a concurrent save, exactly that entry is added. */
  lemma CreateOutcomeSpec(m: Table, videoUri: string, slugs: seq<string>, rival: Option<Entry>)
    requires ValidTable(m) && WellFormedRival(rival)
    requires videoUri !in m ==> HasFreeDraw(m, slugs)
    ensures ValidTable(CreateOutcome(m, videoUri, slugs, rival).1)
    ensures videoUri in m ==> CreateOutcome(m, videoUri, slugs, rival) == (m[videoUri].shortenedUrl, m)
    ensures videoUri !in m ==>
      && CreateOutcome(m, videoUri, slugs, rival).0 == ShortUrlFor(FreshSlug(m, slugs))
      && !SlugTaken(m, FreshSlug(m, slugs))
      && (rival.None? ==>
            CreateOutcome(m, videoUri, slugs, rival).1 == m[videoUri := Entry(videoUri, FreshSlug(m, slugs), ShortUrlFor(FreshSlug(m, slugs)))])
  {
    if videoUri !in m {
      var slug := FreshSlug(m, slugs);
      var ours := Entry(videoUri, slug, ShortUrlFor(slug));
      var m1 := if rival.Some? then SaveTo(m, rival.value).0 else m;
      if rival.Some? { SaveKeepsValid(m, rival.value); }
      SaveKeepsValid(m1, ours);
    }
  }

  /** A concurrent save of the same video under another slug (someone spamming the link)
      makes this caller return a URL that no entry holds: the link does not resolve. */
  lemma SpamRaceReturnsDeadUrl(m: Table, videoUri: string, slugs: seq<string>, other: string)
    requires ValidTable(m) && videoUri !in m && HasFreeDraw(m, slugs)
    requires !SlugTaken(m, other) && other != FreshSlug(m, slugs)
    ensures var rival := Entry(videoUri, other, ShortUrlFor(other));
      && videoUri in CreateOutcome(m, videoUri, slugs, Some(rival)).1
      && CreateOutcome(m, videoUri, slugs, Some(rival)).1[videoUri] == rival
      && forall u :: u in CreateOutcome(m, videoUri, slugs, Some(rival)).1 ==>
           CreateOutcome(m, videoUri, slugs, Some(rival)).1[u].shortenedUrl != CreateOutcome(m, videoUri, slugs, Some(rival)).0
  {
    var rival := Entry(videoUri, other, ShortUrlFor(other));
    var slug := FreshSlug(m, slugs);
    var m1 := m[videoUri := rival];
    assert SaveTo(m, rival) == (m1, true);
    assert SlugTaken(m1, rival.slug) by { assert m1[videoUri].slug == rival.slug; }
    assert SaveTo(m1, Entry(videoUri, slug, ShortUrlFor(slug))) == (m1, false);
    var (url, m') := CreateOutcome(m, videoUri, slugs, Some(rival));
    assert url == ShortUrlFor(slug) && m' == m1;
    forall u | u in m1 ensures m1[u].shortenedUrl != url {
      if u != videoUri {
        assert m[u].slug != slug;
        assert m1[u].shortenedUrl == ShortUrlFor(m[u].slug) by { assert ValidTable(m); }
        ShortUrlInjective(m[u].slug, slug);
      } else {
        ShortUrlInjective(other, slug);
      }
    }
  }

  /** A concurrent save of another video that drew the same slug makes this caller
      return a URL that resolves to the other video, while its own video gets no entry. */
  lemma SlugRaceReturnsForeignUrl(m: Table, videoUri: string, slugs: seq<string>, otherUri: string)
    requires ValidTable(m) && videoUri !in m && otherUri !in m && otherUri != videoUri && HasFreeDraw(m, slugs)
    ensures var rival := Entry(otherUri, FreshSlug(m, slugs), ShortUrlFor(FreshSlug(m, slugs)));
      && videoUri !in CreateOutcome(m, videoUri, slugs, Some(rival)).1
      && otherUri in CreateOutcome(m, videoUri, slugs, Some(rival)).1
      && CreateOutcome(m, videoUri, slugs, Some(rival)).1[otherUri].shortenedUrl == CreateOutcome(m, videoUri, slugs, Some(rival)).0
  {
    var slug := FreshSlug(m, slugs);
    var rival := Entry(otherUri, slug, ShortUrlFor(slug));
    var m1 := m[otherUri := rival];
    assert SaveTo(m, rival) == (m1, true);
    assert SlugTaken(m1, slug) by { assert m1[otherUri].slug == slug; }
  }

  /** The evidently intended behaviour: after a rejected save, read the entry for
      `video_uri` back and return its URL; when there is none (the slug was taken
      concurrently by another video) return nothing rather than a wrong link. */
  function CreateOutcomeRereading(m: Table, videoUri: string, slugs: seq<string>, rival: Option<Entry>): (Option<string>, Table)
    requires videoUri !in m ==> HasFreeDraw(m, slugs)
  {
    var m' := CreateOutcome(m, videoUri, slugs, rival).1;
    (if videoUri in m' then Some(m'[videoUri].shortenedUrl) else None, m')
  }

  /** With re-reading, a returned URL is always the one stored for the video, and one
      is returned whenever no concurrent save of another video took the slug. */
  lemma RereadingReturnsStoredUrl(m: Table, videoUri: string, slugs: seq<string>, rival: Option<Entry>)
    requires ValidTable(m) && WellFormedRival(rival)
    requires videoUri !in m ==> HasFreeDraw(m, slugs)
    ensures var (url, m') := CreateOutcomeRereading(m, videoUri, slugs, rival);
      && (url.Some? ==> videoUri in m' && url.value == m'[videoUri].shortenedUrl)
      && (rival.None? || rival.value.videoUri == videoUri ==> url.Some?)
      && (videoUri in m ==> url == Some(m[videoUri].shortenedUrl))
  {
    if videoUri !in m {
      var slug := FreshSlug(m, slugs);
      var ours := Entry(videoUri, slug, ShortUrlFor(slug));
      var m1 := if rival.Some? then SaveTo(m, rival.value).0 else m;
      if rival.Some? { SaveKeepsValid(m, rival.value); }
      SaveKeepsValid(m1, ours);
    }
  }

  /** The encoded draws: `urlsafe_b64encode(urandom(6)).decode()` for each draw. */
  function SlugsOf(draws: seq<Random6>): seq<string> {
    seq(|draws|, i requires 0 <= i < |draws| => Slug(draws[i]))
  }

  // -------------------------------------------------------------- the stored table

  class ShortenerStore {
    var entries: Table

    ghost predicate Valid()
      reads this
    {
      ValidTable(entries)
    }

    constructor ()
      ensures entries == map[] && Valid()
    {
      entries := map[];
    }

    /** `Shortener.find_one({"video_uri": video_uri})`. */
    method FindByUri(videoUri: string) returns (e: Option<Entry>)
      ensures e.Some? <==> videoUri in entries
      ensures e.Some? ==> e.value == entries[videoUri]
    {
      e := if videoUri in entries then Some(entries[videoUri]) else None;
    }

    /** `Shortener.find_one({"slug": slug}) != None`. */
    method SlugExists(slug: string) returns (b: bool)
      ensures b <==> SlugTaken(entries, slug)
    {
      b := exists u :: u in entries && entries[u].slug == slug;
    }

    /** `shortener.save()`: false for DuplicateKeyError. */
    method Save(e: Entry) returns (ok: bool)
      modifies this
      ensures (entries, ok) == SaveTo(old(entries), e)
    {
      var taken := SlugExists(e.slug);
      if e.videoUri !in entries && !taken {
        entries := entries[e.videoUri := e];
        ok := true;
      } else {
        ok := false;
      }
    }

    /** The slug loop: draw again while some entry already uses the slug. */
    method DrawFreeSlug(slugs: seq<string>) returns (slug: string)
      requires HasFreeDraw(entries, slugs)
      ensures slug == FreshSlug(entries, slugs)
    {
      var i := 0;
      slug := slugs[0];
      var taken := SlugExists(slug);
      while taken
        invariant 0 <= i < |slugs| && slug == slugs[i]
        invariant taken <==> SlugTaken(entries, slug)
        invariant i <= FirstFree(entries, slugs, 0)
        invariant FirstFree(entries, slugs, 0) == FirstFree(entries, slugs, i)
        decreases |slugs| - i
      {
        i := i + 1;
        slug := slugs[i];
        taken := SlugExists(slug);
      }
    }

    /** `create_short_url(video_uri)` as written, with `draws` standing for successive
        `urandom(6)` results and `rival` for a concurrent caller's save. A new URL is
        the base URL followed by eight URL-safe base64 characters. */
    method CreateShortUrl(videoUri: string, draws: seq<Random6>, rival: Option<Entry>) returns (url: string)
      requires Valid() && WellFormedRival(rival)
      requires videoUri !in entries ==> HasFreeDraw(entries, SlugsOf(draws))
      modifies this
      ensures Valid()
      ensures (url, entries) == CreateOutcome(old(entries), videoUri, SlugsOf(draws), rival)
      ensures videoUri !in old(entries) ==> exists k :: 0 <= k < |draws| && url == ShortUrlFor(Slug(draws[k]))
    {
      ghost var slugs := SlugsOf(draws);
      CreateOutcomeSpec(entries, videoUri, slugs, rival);
      var existing := FindByUri(videoUri);
      if existing.Some? {
        return existing.value.shortenedUrl;
      }
      var slug := DrawFreeSlug(SlugsOf(draws));
      var shortener := Entry(videoUri, slug, ShortUrlFor(slug));
      if rival.Some? {
        var _ := Save(rival.value);
      }
      var _ := Save(shortener);
      url := shortener.shortenedUrl;
    }

    /** The corrected version: re-read the entry for `video_uri` after the save. */
    method CreateShortUrlRereading(videoUri: string, draws: seq<Random6>, rival: Option<Entry>) returns (url: Option<string>)
      requires Valid() && WellFormedRival(rival)
      requires videoUri !in entries ==> HasFreeDraw(entries, SlugsOf(draws))
      modifies this
      ensures Valid()
      ensures (url, entries) == CreateOutcomeRereading(old(entries), videoUri, SlugsOf(draws), rival)
    {
      var _ := CreateShortUrl(videoUri, draws, rival);
      var stored := FindByUri(videoUri);
      url := if stored.Some? then Some(stored.value.shortenedUrl) else None;
    }
  }
}
