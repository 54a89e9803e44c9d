/**
 * The decision rules of the TikTok command handlers (`tiktoker/scales/tiktok.py`):
 * button ids and their dispatch, the embed title, the tag field and its length cut,
 * the size warning, the link branching of the three convert handlers and the way the
 * automatic embed treats the original message. The handlers themselves are methods
 * over the stores; Discord calls and the video fetch are inputs.
 */
module TikTokScale {
  import opened Wrappers
  import opened Text
  import opened Links
  import opened Tables
  import Payload
  import Shortener

  // --------------------------------------------------------------------- buttons

  /** `f"v_id{video_id}"`: `video_id` is the id string taken from the link. */
  function VideoButtonId(videoId: string): string {
    "v_id" + videoId
  }

  /** `f"m_id{tiktok.id}"`. */
  function AudioButtonId(awemeId: Payload.Json): string {
    "m_id" + Payload.PyStr(awemeId)
  }

  /** `f"delete{author.id}"`. */
  function DeleteButtonId(authorId: int): string {
    "delete" + IntToDecimal(authorId)
  }

  predicate HasPrefix(s: string, p: string) {
    |p| <= |s| && s[..|p|] == p
  }

  datatype ButtonAction =
    | DeleteMessage         // the clicker may manage messages
    | RefuseDelete          // "You don't have the permissions to delete this message."
    | ShowVideoInfo(videoId: int)
    | InfoIdError           // `int(custom_id[4:])` raises, and nothing catches it; neither
                            // is a failed fetch after `ShowVideoInfo` caught
    | ShowAudio(awemeId: int) // a failed fetch of this id is caught and reported as below
    | AudioUnavailable      // the raised `int` error is caught: "this audio is deleted"
    | Ignore

  /** `on_button_click`: dispatch on the prefix, in the order `delete`, `v_id`, `m_id`.
      The author test `ctx.author.id == ctx.custom_id[6:]` compares an int with a str
      and is never true, so only the permission decides a delete. */
  function OnButtonClick(customId: string, canManageMessages: bool): ButtonAction {
    if HasPrefix(customId, "delete") then
      if canManageMessages then DeleteMessage else RefuseDelete
    else if HasPrefix(customId, "v_id") then
      match ParseInt(customId[4..])
      case Some(v) => ShowVideoInfo(v)
      case None => InfoIdError
    else if HasPrefix(customId, "m_id") then
      match ParseInt(customId[4..])
      case Some(v) => ShowAudio(v)
      case None => AudioUnavailable
    else Ignore
  }

  lemma ParseIntOfDigits(d: string)
    requires d != [] && AllDigits(d)
    ensures ParseInt(d) == Some(DigitsValue(d))
  {
    assert IsDigit(d[0]);
  }

  /** The info button of a video is dispatched with the id it was built from:
      `int(("v_id" + id)[4:])` is the id. */
  lemma VideoButtonRoundTrip(videoId: string, canManage: bool)
    requires videoId != [] && AllDigits(videoId)
    ensures OnButtonClick(VideoButtonId(videoId), canManage) == ShowVideoInfo(DigitsValue(videoId))
  {
    var v := VideoButtonId(videoId);
    assert v[4..] == videoId;
    assert v[0] == 'v';
    ParseIntOfDigits(videoId);
  }

  /** The audio button carries the record's id: `int(("m_id" + str(n))[4:]) == n`. */
  lemma AudioButtonRoundTrip(awemeId: int, canManage: bool)
    ensures OnButtonClick(AudioButtonId(Payload.JInt(awemeId)), canManage) == ShowAudio(awemeId)
  {
    var d := IntToDecimal(awemeId);
    assert AudioButtonId(Payload.JInt(awemeId)) == "m_id" + d;
    AudioButtonDispatch(d, canManage);
    ParseIntOfIntToDecimal(awemeId);
  }

  /** An `m_id` button is dispatched on the number after its prefix. */
  lemma AudioButtonDispatch(d: string, canManage: bool)
    ensures OnButtonClick("m_id" + d, canManage) ==
      match ParseInt(d) case Some(v) => ShowAudio(v) case None => AudioUnavailable
  {
    var m := "m_id" + d;
    assert m[..4] == "m_id" && m[4..] == d && m[0] == 'm';
  }

  /** A delete button works only for someone who can manage messages, the author of the
      converted link included. */
  lemma DeleteButtonNeedsPermission(authorId: int, canManage: bool)
    ensures OnButtonClick(DeleteButtonId(authorId), canManage) == (if canManage then DeleteMessage else RefuseDelete)
  {
    var d := DeleteButtonId(authorId);
    assert d[..6] == "delete";
  }

  /** An id with none of the three prefixes does nothing, whatever the permissions. */
  lemma UnknownButtonIgnored(customId: string, canManage: bool)
    requires !HasPrefix(customId, "delete") && !HasPrefix(customId, "v_id") && !HasPrefix(customId, "m_id")
    ensures OnButtonClick(customId, canManage) == Ignore
  {
  }

  // ---------------------------------------------------------------- info embed

  /** Discord's embed limit the handlers warn about, in bytes. */
  const EmbedSizeLimit: int := 50000000

  /** The size warning is attached when `tiktok.video.size > 50000000`. */
  function TooBig(size: int): bool {
    size > EmbedSizeLimit
  }

  /** `short_url + ("\n" + too_big if too_big else "")`. */
  function WithWarning(shortUrl: string, warning: string, tooBig: bool): string {
    shortUrl + (if tooBig then "\n" + warning else "")
  }

  /** The message always starts with the short URL; the warning follows on its own line
      exactly when the video is larger than the limit, a size of exactly the limit
      included among the small ones. */
  lemma WarningExactlyWhenTooBig(shortUrl: string, warning: string, size: int)
    ensures var m := WithWarning(shortUrl, warning, TooBig(size));
      && m[..|shortUrl|] == shortUrl
      && (size > 50000000 <==> m == shortUrl + "\n" + warning)
      && (size <= 50000000 <==> m == shortUrl)
  {
    var m := WithWarning(shortUrl, warning, TooBig(size));
    if size > 50000000 {
      assert |m| > |shortUrl|;
    }
  }

  /** The title of the info embed: `cleaned[:256]`, or none for an empty description. */
  function EmbedTitle(cleaned: string): (r: Option<string>)
    ensures r.None? <==> cleaned == ""
    ensures r.Some? ==> |r.value| == (if |cleaned| < 256 then |cleaned| else 256)
    ensures r.Some? ==> r.value == cleaned[..|r.value|]
  {
    if cleaned == "" then None
    else if |cleaned| <= 256 then Some(cleaned)
    else Some(cleaned[..256])
  }

  // -------------------------------------------------------------------- tag field

  /** ``f"[`#{tag}`](http://tiktok.com/tag/{tag})"``. */
  function TagLink(tag: string): string {
    "[`#" + tag + "`](http://tiktok.com/tag/" + tag + ")"
  }

  /** `" ".join(...)` of the tag links. */
  function JoinTags(tags: seq<string>): string
    decreases |tags|
  {
    if |tags| == 0 then ""
    else if |tags| == 1 then TagLink(tags[0])
    else JoinTags(tags[..|tags| - 1]) + " " + TagLink(tags[|tags| - 1])
  }

  /** The last occurrence of `pat` starting at or before `k`. */
  function LastFrom(s: string, pat: string, k: nat): (r: Option<nat>)
    ensures r.Some? ==> r.value <= k && StartsAt(s, r.value, pat)
    ensures r.Some? ==> forall j :: r.value < j <= k ==> !StartsAt(s, j, pat)
    ensures r.None? ==> forall j :: 0 <= j <= k ==> !StartsAt(s, j, pat)
    decreases k
  {
    if StartsAt(s, k, pat) then Some(k)
    else if k == 0 then None
    else LastFrom(s, pat, k - 1)
  }

  /** `s.rsplit(pat, 1)[0]`: everything before the last occurrence of `pat`. */
  function BeforeLast(s: string, pat: string): (r: string)
    ensures |r| <= |s| && r == s[..|r|]
    ensures LastFrom(s, pat, |s|).Some? ==> |r| == LastFrom(s, pat, |s|).value
    ensures LastFrom(s, pat, |s|).None? ==> r == s
  {
    match LastFrom(s, pat, |s|)
    case None => s
    case Some(k) => s[..k]
  }

  /** The most characters an embed field value may hold. */
  const FieldLimit: nat := 1024

  /** The tag text as written: `tags[:1024].rsplit(") ", 1)[0] + ") ..."` when longer
      than 1024 characters. */
  function CutTagsAsWritten(s: string): string {
    if |s| > FieldLimit then BeforeLast(s[..FieldLimit], ") ") + ") ..." else s
  }

  /** The cut as intended: leave room for the five characters of `") ..."`. */
  function CutTags(s: string): string {
    if |s| > FieldLimit then BeforeLast(s[..FieldLimit - 5], ") ") + ") ..." else s
  }

  /** The tag field of the info embed as written; none when there are no tags. */
  function TagFieldAsWritten(tags: seq<string>): Option<string> {
    if |tags| > 0 then Some(CutTagsAsWritten(JoinTags(tags))) else None
  }

  /** The tag field with the intended cut. */
  function TagField(tags: seq<string>): Option<string> {
    if |tags| > 0 then Some(CutTags(JoinTags(tags))) else None
  }

  /** When the last `") "` of the first 1024 characters sits at index 1022, the field
      as written is 1027 characters long, over the limit it was cut for. */
  lemma CutTagsAsWrittenOverflows(s: string)
    requires |s| > 1024 && StartsAt(s, 1022, ") ")
    ensures |CutTagsAsWritten(s)| == 1027
  {
    var p := s[..1024];
    assert StartsAt(p, 1022, ") ") by { assert p[1022..1024] == s[1022..1024]; }
    assert LastFrom(p, ") ", 1024) == LastFrom(p, ") ", 1022) by {
      assert !StartsAt(p, 1024, ") ") && !StartsAt(p, 1023, ") ");
    }
  }

  lemma TagLinkShape(tag: string)
    ensures |TagLink(tag)| == 29 + 2 * |tag|
    ensures TagLink(tag)[|TagLink(tag)| - 1] == ')'
  {
  }

  function Repeat(t: string, n: nat): seq<string> {
    seq(n, _ => t)
  }

  lemma {:induction false} JoinRepeatLength(t: string, n: nat)
    requires |t| == 5 && n >= 1
    ensures |JoinTags(Repeat(t, n))| == 40 * n - 1
    decreases n
  {
    TagLinkShape(t);
    if n > 1 {
      assert Repeat(t, n)[..n - 1] == Repeat(t, n - 1);
      JoinRepeatLength(t, n - 1);
    }
  }

  lemma JoinSnoc(a: seq<string>, x: string)
    requires a != []
    ensures JoinTags(a + [x]) == JoinTags(a) + " " + TagLink(x)
  {
    assert (a + [x])[..|a|] == a;
  }

  /** An input that shows the overflow: twenty-four five-character tags, one of
      seventeen characters and any further tag give a field of 1027 characters. */
  lemma TagFieldOverflowExample(five: string, seventeen: string, last: string)
    requires |five| == 5 && |seventeen| == 17
    ensures var f := TagFieldAsWritten(Repeat(five, 24) + [seventeen, last]);
      f.Some? && |f.value| == 1027
  {
    var a := Repeat(five, 24);
    JoinRepeatLength(five, 24);
    JoinSnoc(a, seventeen);
    var head := JoinTags(a + [seventeen]);
    TagLinkShape(seventeen);
    assert |head| == 1023 && head[1022] == ')';
    assert a + [seventeen, last] == (a + [seventeen]) + [last];
    JoinSnoc(a + [seventeen], last);
    var s := JoinTags(a + [seventeen, last]);
    assert s == head + " " + TagLink(last);
    assert s[1022] == ')' && s[1023] == ' ';
    assert StartsAt(s, 1022, ") ") by { assert s[1022..1024] == ") "; }
    CutTagsAsWrittenOverflows(s);
  }

  /** The intended cut always fits the field. Text that fits is kept whole. Longer text
      keeps a prefix of itself; when the first 1019 characters hold a `") "`, the prefix
      ends just before one, so only whole tags are kept. */
  lemma CutTagsFits(s: string)
    ensures |CutTags(s)| <= FieldLimit
    ensures |s| <= FieldLimit ==> CutTags(s) == s
    ensures |s| > FieldLimit ==>
      var k := |BeforeLast(s[..FieldLimit - 5], ") ")|;
      && k <= FieldLimit - 5
      && CutTags(s) == s[..k] + ") ..."
      && (LastFrom(s[..FieldLimit - 5], ") ", FieldLimit - 5).Some? ==> StartsAt(s, k, ") "))
  {
    if |s| > FieldLimit {
      var p := s[..FieldLimit - 5];
      var b := BeforeLast(p, ") ");
      assert b == s[..|b|];
      match LastFrom(p, ") ", |p|)
      case None =>
      case Some(k) =>
        assert p[k..k + 2] == s[k..k + 2];
    }
  }

  /** The field is present exactly when there are tags, and holds the whole joined text
      when that fits. */
  lemma TagFieldSpec(tags: seq<string>)
    ensures TagField(tags).Some? <==> tags != []
    ensures tags != [] && |JoinTags(tags)| <= FieldLimit ==> TagField(tags) == Some(JoinTags(tags))
    ensures tags != [] ==> |TagField(tags).value| <= FieldLimit
  {
    if tags != [] {
      CutTagsFits(JoinTags(tags));
    }
  }

  /** The tag field as written is present exactly when there are tags and holds the
      whole joined text when that fits; otherwise it is a prefix of the first 1024
      characters followed by `") ..."`, so at most 1029 characters. */
  lemma TagFieldAsWrittenSpec(tags: seq<string>)
    ensures TagFieldAsWritten(tags).Some? <==> tags != []
    ensures tags != [] && |JoinTags(tags)| <= FieldLimit ==> TagFieldAsWritten(tags) == Some(JoinTags(tags))
    ensures tags != [] && |JoinTags(tags)| > FieldLimit ==>
      var s := JoinTags(tags);
      var k := |BeforeLast(s[..FieldLimit], ") ")|;
      && k <= FieldLimit
      && TagFieldAsWritten(tags).value == s[..k] + ") ..."
    ensures tags != [] ==> |TagFieldAsWritten(tags).value| <= FieldLimit + 5
  {
    if tags != [] && |JoinTags(tags)| > FieldLimit {
      var s := JoinTags(tags);
      var b := BeforeLast(s[..FieldLimit], ") ");
      assert b == s[..|b|];
    }
  }

  /** The info embed's title and tag field from the fetched description, as written. */
  function InfoTitleAndTags(d: Payload.Description): (r: (Option<string>, Option<string>))
    ensures r.0 == EmbedTitle(d.cleaned)
    ensures r.1.Some? <==> d.tags != []
    ensures d.tags != [] ==> |r.1.value| <= FieldLimit + 5
  {
    TagFieldAsWrittenSpec(d.tags);
    (EmbedTitle(d.cleaned), TagFieldAsWritten(d.tags))
  }

  // ------------------------------------------------------------ link branching

  datatype LinkStep =
    | NoLink                          // no link, or a douyin link: reply and stop before any fetch
    | FetchId(videoId: Option<string>)

  /** The link branching shared by the three convert handlers, given what
      `check_for_link` found and what `get_video_id(link.url)` returns for a short link:
      a short link is fetched by the id it leads to, every other link by its own id. */
  function NextStep(link: Option<LinkData>, shortTarget: Option<string>): LinkStep {
    match link
    case None => NoLink
    case Some(l) =>
      if l.douyin then NoLink
      else if l.kind == Short then FetchId(shortTarget)
      else FetchId(Some(l.id))
  }

  /** The branching on a message's text, with the short link's redirect `Location`. */
  function ResolveLink(content: string, location: Option<string>): LinkStep {
    NextStep(CheckForLink(content), GetVideoId(location))
  }

  /** There is nothing to fetch exactly when the text holds no link; a long, medium or
      for-you link is fetched by its own id, a short link by the id of where it leads. */
  lemma ResolveLinkSpec(content: string, location: Option<string>)
    ensures ResolveLink(content, location).NoLink? <==> CheckForLink(content).None?
    ensures CheckForLink(content).Some? && CheckForLink(content).value.kind != Short ==>
      && ResolveLink(content, location) == FetchId(Some(CheckForLink(content).value.id))
      && IdShape(PatternOf(CheckForLink(content).value.kind), CheckForLink(content).value.id)
    ensures CheckForLink(content).Some? && CheckForLink(content).value.kind == Short ==>
      ResolveLink(content, location) == FetchId(GetVideoId(location))
  {
  }

  // ------------------------------------------------------------ handler outcomes

  /** How the automatic embed treats the original message. */
  datatype Delivery = PostAndDeleteOrigin | SuppressAndReply | Reply

  /** `delete_origin` is tested before `suppress_origin_embed`. */
  function DeliveryFor(c: Config): Delivery {
    if c.deleteOrigin then PostAndDeleteOrigin
    else if c.suppressOriginEmbed then SuppressAndReply
    else Reply
  }

  /** Deleting the original wins over suppressing its embed; with neither option the bot
      only replies; a new guild's defaults suppress the embed and reply. */
  lemma DeliveryPrecedence(c: Config, g: int)
    ensures c.deleteOrigin ==> DeliveryFor(c) == PostAndDeleteOrigin
    ensures DeliveryFor(c) == SuppressAndReply <==> !c.deleteOrigin && c.suppressOriginEmbed
    ensures DeliveryFor(c) == Reply <==> !c.deleteOrigin && !c.suppressOriginEmbed
    ensures DeliveryFor(DefaultConfig(g)) == SuppressAndReply
  {
  }

  /** The two fields of the fetched record the handlers read. */
  datatype Fetched = Fetched(videoUri: string, size: int)

  datatype Outcome =
    | Skipped                 // own message, no link, or auto-embed off: nothing sent
    | NoLinkReply             // the commands' "no link" reply
    | FetchFailed             // the fetch raised
    | Posted(shortUrl: string, tooBig: bool, delivery: Delivery, recorded: bool)

  /** `video_id` is saved into an int field, so it must read as an integer. */
  function UsageVideoId(videoId: string): Option<int> {
    ParseInt(videoId)
  }

  /** The common tail of the convert handlers as written: `create_short_url`, the size
      warning and `insert_usage_data`. `rival` is a competing insert that lands inside
      `create_short_url`, between its slug check and its save. */
  method Deliver(store: Shortener.ShortenerStore, usage: UsageTable, optOut: OptOutTable,
                 guildId: int, authorId: int, videoId: string, fetched: Fetched,
                 draws: seq<Shortener.Random6>, rival: Option<Shortener.Entry>, sentId: int)
      returns (shortUrl: string, tooBig: bool, recorded: bool)
    requires store.Valid() && Shortener.WellFormedRival(rival)
    requires fetched.videoUri !in store.entries ==> Shortener.HasFreeDraw(store.entries, Shortener.SlugsOf(draws))
    modifies store, usage
    ensures store.Valid()
    ensures (shortUrl, store.entries) == Shortener.CreateOutcome(old(store.entries), fetched.videoUri, Shortener.SlugsOf(draws), rival)
    ensures rival.None? ==> fetched.videoUri in store.entries && shortUrl == store.entries[fetched.videoUri].shortenedUrl
    ensures tooBig <==> TooBig(fetched.size)
    ensures recorded <==> UsageVideoId(videoId).Some?
    ensures recorded ==> (usage.rows == old(usage.rows) +
      [NewUsageRow(authorId in optOut.users, guildId, authorId, UsageVideoId(videoId).value, sentId, usage.defaultEntryTime)])
    ensures !recorded ==> usage.rows == old(usage.rows)
  {
    Shortener.CreateOutcomeSpec(store.entries, fetched.videoUri, Shortener.SlugsOf(draws), rival);
    shortUrl := store.CreateShortUrl(fetched.videoUri, draws, rival);
    tooBig := false;
    if fetched.size > 50000000 {
      tooBig := true;
    }
    var vid := UsageVideoId(videoId);
    recorded := vid.Some?;
    if recorded {
      usage.InsertUsageData(optOut, guildId, authorId, vid.value, sentId);
    }
  }

  /** `on_message_create`: the automatic embed of a link posted in a guild. `link` is
      what `check_for_link` finds in the message and `shortTarget` what `get_video_id`
      returns for a short link; `fetched` is the fetched record, or none when the fetch
      raised; `sentId` is the id of the bot's reply. */
  method OnMessageCreate(configs: ConfigTable, store: Shortener.ShortenerStore, usage: UsageTable, optOut: OptOutTable,
                         fromBot: bool, guildId: int, authorId: int, link: Option<LinkData>, shortTarget: Option<string>,
                         fetched: Option<Fetched>, draws: seq<Shortener.Random6>, rival: Option<Shortener.Entry>, sentId: int)
      returns (r: Outcome)
    requires configs.Valid() && store.Valid() && Shortener.WellFormedRival(rival)
    requires fetched.Some? && fetched.value.videoUri !in store.entries ==>
      Shortener.HasFreeDraw(store.entries, Shortener.SlugsOf(draws))
    modifies configs, store, usage
    ensures configs.Valid() && store.Valid()
    ensures fromBot || NextStep(link, shortTarget).NoLink? ==>
      r == Skipped && configs.configs == old(configs.configs) && store.entries == old(store.entries) && usage.rows == old(usage.rows)
    ensures !fromBot && NextStep(link, shortTarget).FetchId? ==>
      configs.configs == GetOrCreate(old(configs.configs), guildId).1
    ensures !fromBot && NextStep(link, shortTarget).FetchId? && !GetOrCreate(old(configs.configs), guildId).0.autoEmbed ==>
      r == Skipped && store.entries == old(store.entries) && usage.rows == old(usage.rows)
    ensures !fromBot && NextStep(link, shortTarget).FetchId? && GetOrCreate(old(configs.configs), guildId).0.autoEmbed ==>
      && (r.FetchFailed? <==> NextStep(link, shortTarget).videoId.None? || fetched.None?)
      && (r.Posted? <==> NextStep(link, shortTarget).videoId.Some? && fetched.Some?)
    ensures r.Posted? ==>
      && !fromBot && fetched.Some? && NextStep(link, shortTarget).FetchId? && NextStep(link, shortTarget).videoId.Some?
      && GetOrCreate(old(configs.configs), guildId).0.autoEmbed
      && r.delivery == DeliveryFor(GetOrCreate(old(configs.configs), guildId).0)
      && r.tooBig == TooBig(fetched.value.size)
      && (r.shortUrl, store.entries) == Shortener.CreateOutcome(old(store.entries), fetched.value.videoUri, Shortener.SlugsOf(draws), rival)
      && (rival.None? ==> fetched.value.videoUri in store.entries && r.shortUrl == store.entries[fetched.value.videoUri].shortenedUrl)
      && (r.recorded <==> UsageVideoId(NextStep(link, shortTarget).videoId.value).Some?)
      && (r.recorded ==> (usage.rows == old(usage.rows) +
            [NewUsageRow(authorId in optOut.users, guildId, authorId, UsageVideoId(NextStep(link, shortTarget).videoId.value).value,
                         sentId, usage.defaultEntryTime)]))
      && (!r.recorded ==> usage.rows == old(usage.rows))
    ensures r.FetchFailed? ==> store.entries == old(store.entries) && usage.rows == old(usage.rows)
    ensures r != NoLinkReply
  {
    if fromBot {
      return Skipped;
    }
    var step := NextStep(link, shortTarget);
    if step.NoLink? {
      return Skipped;
    }
    var config := configs.GetGuildConfig(guildId);
    if !config.autoEmbed {
      return Skipped;
    }
    if step.videoId.None? || fetched.None? {
      return FetchFailed;
    }
    var shortUrl, tooBig, recorded :=
      Deliver(store, usage, optOut, guildId, authorId, step.videoId.value, fetched.value, draws, rival, sentId);
    r := Posted(shortUrl, tooBig, DeliveryFor(config), recorded);
  }

  /** The `Convert` message command (`fromMenu`) and the `/tiktok` command: both read the
      guild config first and reply in the channel; the menu command also suppresses the
      original embed when the guild asks for it. The inputs are those of
      `OnMessageCreate`. */
  method ConvertCommand(configs: ConfigTable, store: Shortener.ShortenerStore, usage: UsageTable, optOut: OptOutTable,
                        fromMenu: bool, guildId: int, authorId: int, link: Option<LinkData>, shortTarget: Option<string>,
                        fetched: Option<Fetched>, draws: seq<Shortener.Random6>, rival: Option<Shortener.Entry>, sentId: int)
      returns (r: Outcome)
    requires configs.Valid() && store.Valid() && Shortener.WellFormedRival(rival)
    requires fetched.Some? && fetched.value.videoUri !in store.entries ==>
      Shortener.HasFreeDraw(store.entries, Shortener.SlugsOf(draws))
    modifies configs, store, usage
    ensures configs.Valid() && store.Valid()
    ensures configs.configs == GetOrCreate(old(configs.configs), guildId).1
    ensures NextStep(link, shortTarget).NoLink? <==> r == NoLinkReply
    ensures NextStep(link, shortTarget).FetchId? ==>
      && (r.FetchFailed? <==> NextStep(link, shortTarget).videoId.None? || fetched.None?)
      && (r.Posted? <==> NextStep(link, shortTarget).videoId.Some? && fetched.Some?)
    ensures r == NoLinkReply || r.FetchFailed? ==> store.entries == old(store.entries) && usage.rows == old(usage.rows)
    ensures r.Posted? ==>
      && fetched.Some? && NextStep(link, shortTarget).FetchId? && NextStep(link, shortTarget).videoId.Some?
      && r.tooBig == TooBig(fetched.value.size)
      && r.delivery == (if fromMenu && GetOrCreate(old(configs.configs), guildId).0.suppressOriginEmbed then SuppressAndReply else Reply)
      && (r.shortUrl, store.entries) == Shortener.CreateOutcome(old(store.entries), fetched.value.videoUri, Shortener.SlugsOf(draws), rival)
      && (rival.None? ==> fetched.value.videoUri in store.entries && r.shortUrl == store.entries[fetched.value.videoUri].shortenedUrl)
      && (r.recorded <==> UsageVideoId(NextStep(link, shortTarget).videoId.value).Some?)
      && (r.recorded ==> (usage.rows == old(usage.rows) +
            [NewUsageRow(authorId in optOut.users, guildId, authorId, UsageVideoId(NextStep(link, shortTarget).videoId.value).value,
                         sentId, usage.defaultEntryTime)]))
      && (!r.recorded ==> usage.rows == old(usage.rows))
    ensures r != Skipped
  {
    var config := configs.GetGuildConfig(guildId);
    var step := NextStep(link, shortTarget);
    if step.NoLink? {
      return NoLinkReply;
    }
    if step.videoId.None? || fetched.None? {
      return FetchFailed;
    }
    var shortUrl, tooBig, recorded :=
      Deliver(store, usage, optOut, guildId, authorId, step.videoId.value, fetched.value, draws, rival, sentId);
    var delivery := Reply;
    if fromMenu && config.suppressOriginEmbed {
      delivery := SuppressAndReply;
    }
    r := Posted(shortUrl, tooBig, delivery, recorded);
  }
}
