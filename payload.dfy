/**
 * The upstream payload normalisation of `tiktoker/models.py` and the acceptance
 * test of `get_tiktok`: a loosely typed JSON object becomes the `TikTokData`
 * record with its `Video`, `Statistics`, `Music`, `Author` and `Description` parts.
 *
 * Each `_process_dict` is a function from the incoming dict to the dict it leaves
 * behind; `from_dict` then hands the keys the record declares to its attrs
 * constructor, which raises TypeError for a field without default that is absent.
 * Faults are the Python exceptions the steps can raise.
 */
module Payload {
  import opened Wrappers
  import opened Text

  /** A decoded JSON value (numbers are integers). */
  datatype Json = JNull | JBool(b: bool) | JInt(i: int) | JStr(s: string) | JList(items: seq<Json>) | JObj(fields: map<string, Json>)

  type Dict = map<string, Json>

  /** The exception a step raises. */
  datatype Fault =
    | MissingField(name: string)  // TypeError: the attrs constructor lacks a field without default
    | NoAttribute                 // AttributeError: `.get`, `.lower`, `.split`, `.strip` on the wrong type
    | BadIndex                    // IndexError or KeyError from `url_list[k]`
    | BadType                     // TypeError: indexing, iterating or concatenating the wrong type
    | BadInt                      // ValueError from `int(...)`
    | NoTikTokData                // ValueError("Unable to get TikTok data")

  // ------------------------------------------------------------- Python values

  /** Python truthiness. */
  predicate Truthy(j: Json) {
    match j
    case JNull => false
    case JBool(b) => b
    case JInt(i) => i != 0
    case JStr(s) => s != ""
    case JList(l) => l != []
    case JObj(m) => m != map[]
  }

  /** `x == 0` (`False == 0` holds in Python). */
  predicate IsZero(j: Json) { j == JInt(0) || j == JBool(false) }

  /** `x == 1` (`True == 1` holds in Python). */
  predicate IsOne(j: Json) { j == JInt(1) || j == JBool(true) }

  /** `d.get(key)`. */
  function Get(d: Dict, key: string): Json {
    if key in d then d[key] else JNull
  }

  /** `x.get(key)` on any value: only a dict has `.get`. */
  function GetFrom(x: Json, key: string): Result<Json, Fault> {
    if x.JObj? then Ok(Get(x.fields, key)) else Err(NoAttribute)
  }

  /** `x[k]` for a non-negative int `k`. */
  function At(x: Json, k: nat): Result<Json, Fault> {
    match x
    case JList(l) => if k < |l| then Ok(l[k]) else Err(BadIndex)
    case JStr(s) => if k < |s| then Ok(JStr([s[k]])) else Err(BadIndex)
    case JObj(_) => Err(BadIndex)
    case _ => Err(BadType)
  }

  /** `addr.get("url_list")[k]`. */
  function UrlListItem(addr: Json, k: nat): Result<Json, Fault> {
    var list :- GetFrom(addr, "url_list");
    At(list, k)
  }

  /** `addr` is a dict whose `url_list` is a list of more than `k` items. */
  predicate HasUrl(addr: Json, k: nat) {
    addr.JObj? && "url_list" in addr.fields && addr.fields["url_list"].JList? && k < |addr.fields["url_list"].items|
  }

  function UrlAt(addr: Json, k: nat): Json
    requires HasUrl(addr, k)
  {
    addr.fields["url_list"].items[k]
  }

  /** `str(x)` as an f-string renders it; lists and dicts are not rendered item by item. */
  function PyStr(j: Json): string {
    match j
    case JNull => "None"
    case JBool(b) => if b then "True" else "False"
    case JInt(i) => IntToDecimal(i)
    case JStr(s) => s
    case JList(_) => "[...]"
    case JObj(_) => "{...}"
  }

  /** `int(x)`. */
  function PyInt(j: Json): Result<int, Fault> {
    match j
    case JInt(i) => Ok(i)
    case JBool(b) => Ok(if b then 1 else 0)
    case JStr(s) => if ParseInt(s).Some? then Ok(ParseInt(s).value) else Err(BadInt)
    case _ => Err(BadType)
  }

  /** What a `for` loop over `x` walks; a non-empty string or dict yields strings,
      on which the loops here fail at once, so only their emptiness is kept. */
  function Iterable(x: Json): Result<seq<Json>, Fault> {
    match x
    case JList(l) => Ok(l)
    case JStr(s) => if s == "" then Ok([]) else Err(NoAttribute)
    case JObj(m) => if m == map[] then Ok([]) else Err(NoAttribute)
    case _ => Err(BadType)
  }

  /** A key the attrs constructor takes: absent keys make it raise. */
  function Field(d: Dict, name: string): Result<Json, Fault> {
    if name in d then Ok(d[name]) else Err(MissingField(name))
  }

  // --------------------------------------------------------------------- Video

  datatype Video = Video(downloadUrl: Json, coverUrl: Json, videoUri: Json, size: Json)

  /** `Video._process_dict`. */
  function ProcessVideo(data: Dict): Result<Dict, Fault> {
    var play := Get(data, "play_addr");
    var d :- if Truthy(play) then
        var url :- UrlListItem(play, 2);
        var uri :- GetFrom(play, "uri");
        var size :- GetFrom(play, "data_size");
        Ok(data["download_url" := url]["video_uri" := uri]["size" := size])
      else Ok(data);
    var cover := Get(d, "cover");
    if Truthy(cover) then
      var url :- UrlListItem(cover, 0);
      Ok(d["cover_url" := url])
    else Ok(d)
  }

  /** `Video.from_dict`: the third rendition URL, the cover's first URL, and `uri`
      and `data_size` of `play_addr`. */
  function VideoFromDict(data: Dict): (r: Result<Video, Fault>)
    ensures var play := Get(data, "play_addr"); var cover := Get(data, "cover");
      HasUrl(play, 2) && HasUrl(cover, 0) ==>
        r == Ok(Video(UrlAt(play, 2), UrlAt(cover, 0), Get(play.fields, "uri"), Get(play.fields, "data_size")))
    ensures var play := Get(data, "play_addr");
      play.JObj? && play != JObj(map[]) && Get(play.fields, "url_list").JList? && |Get(play.fields, "url_list").items| < 3 ==>
        r == Err(BadIndex)
    ensures var play := Get(data, "play_addr");
      r.Ok? && Truthy(play) ==>
        && UrlListItem(play, 2) == Ok(r.value.downloadUrl)
        && GetFrom(play, "uri") == Ok(r.value.videoUri)
        && GetFrom(play, "data_size") == Ok(r.value.size)
    ensures r.Ok? && !Truthy(Get(data, "play_addr")) ==> "download_url" in data
  {
    var d :- ProcessVideo(data);
    var downloadUrl :- Field(d, "download_url");
    var coverUrl :- Field(d, "cover_url");
    var videoUri :- Field(d, "video_uri");
    var size :- Field(d, "size");
    Ok(Video(downloadUrl, coverUrl, videoUri, size))
  }

  // ---------------------------------------------------------------- Statistics

  datatype Statistics = Statistics(playCount: Json, likeCount: Json, commentCount: Json, shareCount: Json, downloadCount: Json)

  /** `if value := d.get(key): d[key] = value`, as the source writes it. */
  function KeepTruthy(d: Dict, key: string): (r: Dict)
    ensures r == d
  {
    if Truthy(Get(d, key)) then d[key := Get(d, key)] else d
  }

  /** `Statistics._process_dict`: only `digg_count` is renamed, and only when truthy. */
  function ProcessStatistics(data: Dict): Dict {
    var d := if Truthy(Get(data, "digg_count")) then data["like_count" := Get(data, "digg_count")] else data;
    KeepTruthy(KeepTruthy(KeepTruthy(KeepTruthy(d, "comment_count"), "share_count"), "download_count"), "play_count")
  }

  /** `Statistics.from_dict`: a truthy `digg_count` becomes `like_count`; a zero or
      missing one leaves `like_count` unset, and the constructor then fails unless
      the payload had a `like_count` of its own. The other counters keep their names. */
  function StatisticsFromDict(data: Dict): (r: Result<Statistics, Fault>)
    ensures r.Ok? ==> && "play_count" in data && "comment_count" in data && "share_count" in data && "download_count" in data
                      && r.value.playCount == data["play_count"] && r.value.commentCount == data["comment_count"]
                      && r.value.shareCount == data["share_count"] && r.value.downloadCount == data["download_count"]
    ensures r.Ok? && Truthy(Get(data, "digg_count")) ==> r.value.likeCount == data["digg_count"]
    ensures r.Ok? && !Truthy(Get(data, "digg_count")) ==> "like_count" in data && r.value.likeCount == data["like_count"]
    ensures !Truthy(Get(data, "digg_count")) && "like_count" !in data ==> r.Err?
    ensures ((forall k :: k in ["play_count", "comment_count", "share_count", "download_count"] ==> k in data)
             && Truthy(Get(data, "digg_count"))) ==> r.Ok?
  {
    var d := ProcessStatistics(data);
    var play :- Field(d, "play_count");
    var like :- Field(d, "like_count");
    var comment :- Field(d, "comment_count");
    var share :- Field(d, "share_count");
    var download :- Field(d, "download_count");
    Ok(Statistics(play, like, comment, share, download))
  }

  // --------------------------------------------------------------------- Music

  datatype Music = Music(
    id: int, title: Json, playUrl: Json, websiteUrl: Json, coverUrl: Json, author: Json,
    ownerNickname: Json, ownerHandle: Json, ownerUrl: Json, avatarUrl: Json)

  /** `if value := d.get(key): d[target] = value.get("url_list")[0]`. */
  function FirstUrlInto(d: Dict, key: string, target: string): (r: Result<Dict, Fault>)
    ensures r.Ok? ==> forall k :: k != target ==> (k in r.value <==> k in d) && Get(r.value, k) == Get(d, k)
    ensures r.Ok? && Truthy(Get(d, key)) ==> target in r.value && UrlListItem(Get(d, key), 0) == Ok(r.value[target])
    ensures !Truthy(Get(d, key)) ==> r == Ok(d)
  {
    if Truthy(Get(d, key)) then
      var url :- UrlListItem(Get(d, key), 0);
      Ok(d[target := url])
    else Ok(d)
  }

  /** `Music._process_dict`. */
  function ProcessMusic(data: Dict): (r: Result<Dict, Fault>)
    ensures r.Ok? ==> "website_url" in r.value && r.value["website_url"] == JStr("https://www.tiktok.com/music/id-" + PyStr(Get(data, "id")))
    ensures r.Ok? ==> "owner_url" in r.value && r.value["owner_url"] == JStr("https://www.tiktok.com/@" + PyStr(Get(data, "owner_handle")))
    ensures r.Ok? ==> ("id" in r.value <==> "id" in data) && Get(r.value, "id") == Get(data, "id")
    ensures r.Ok? && Truthy(Get(data, "play_url")) ==> "play_url" in r.value && UrlListItem(Get(data, "play_url"), 0) == Ok(r.value["play_url"])
    ensures r.Ok? && !Truthy(Get(data, "avatar_thumb")) ==> Get(r.value, "avatar_url") == Get(data, "avatar_url")
  {
    var d1 :- FirstUrlInto(data, "play_url", "play_url");
    var d2 := d1["website_url" := JStr("https://www.tiktok.com/music/id-" + PyStr(Get(d1, "id")))];
    var d3 :- FirstUrlInto(d2, "cover_medium", "cover_url");
    var d4 :- FirstUrlInto(d3, "avatar_thumb", "avatar_url");
    var d5 := KeepTruthy(KeepTruthy(d4, "title"), "id");
    Ok(d5["owner_url" := JStr("https://www.tiktok.com/@" + PyStr(Get(d5, "owner_handle")))])
  }

  /** `Music.from_dict`: the derived URLs, the `int` converter on `id`, and `avatar_url`
      defaulting to None. */
  function MusicFromDict(data: Dict): (r: Result<Music, Fault>)
    ensures r.Ok? ==> r.value.websiteUrl == JStr("https://www.tiktok.com/music/id-" + PyStr(Get(data, "id")))
    ensures r.Ok? ==> r.value.ownerUrl == JStr("https://www.tiktok.com/@" + PyStr(Get(data, "owner_handle")))
    ensures r.Ok? ==> "id" in data && PyInt(data["id"]) == Ok(r.value.id)
    ensures r.Ok? && Truthy(Get(data, "play_url")) ==> UrlListItem(Get(data, "play_url"), 0) == Ok(r.value.playUrl)
    ensures r.Ok? && !Truthy(Get(data, "avatar_thumb")) ==> r.value.avatarUrl == Get(data, "avatar_url")
  {
    var d :- ProcessMusic(data);
    var id :- Field(d, "id");
    var title :- Field(d, "title");
    var playUrl :- Field(d, "play_url");
    var websiteUrl := d["website_url"];
    var coverUrl :- Field(d, "cover_url");
    var author :- Field(d, "author");
    var ownerNickname :- Field(d, "owner_nickname");
    var ownerHandle :- Field(d, "owner_handle");
    var ownerUrl := d["owner_url"];
    var n :- PyInt(id);
    Ok(Music(n, title, playUrl, websiteUrl, coverUrl, author, ownerNickname, ownerHandle, ownerUrl, Get(d, "avatar_url")))
  }

  // -------------------------------------------------------------------- Author

  datatype Author = Author(nickname: Json, uniqueId: Json, url: Json, avatar: Json)

  /** `Author._process_dict`. */
  function ProcessAuthor(data: Dict): (r: Result<Dict, Fault>)
    ensures r.Ok? ==> ("unique_id" in r.value <==> "unique_id" in data) && Get(r.value, "unique_id") == Get(data, "unique_id")
    ensures r.Ok? ==> ("nickname" in r.value <==> "nickname" in data) && Get(r.value, "nickname") == Get(data, "nickname")
    ensures r.Ok? && Truthy(Get(data, "unique_id")) ==>
      Get(data, "unique_id").JStr? && "url" in r.value && r.value["url"] == JStr("https://www.tiktok.com/@" + Get(data, "unique_id").s)
    ensures r.Ok? && !Truthy(Get(data, "unique_id")) ==> ("url" in r.value <==> "url" in data)
  {
    var uid := Get(data, "unique_id");
    var d1 :- if Truthy(uid) then
        (if uid.JStr? then Ok(data["url" := JStr("https://www.tiktok.com/@" + uid.s)]) else Err(BadType))
      else Ok(data);
    var d2 :- FirstUrlInto(d1, "avatar_thumb", "avatar");
    Ok(KeepTruthy(KeepTruthy(d2, "nickname"), "unique_id"))
  }

  /** `Author.from_dict`: the profile URL is derived from a non-empty `unique_id`;
      without one the constructor lacks `url` unless the payload carried it. */
  function AuthorFromDict(data: Dict): (r: Result<Author, Fault>)
    ensures r.Ok? && Truthy(Get(data, "unique_id")) ==>
      Get(data, "unique_id").JStr? && r.value.url == JStr("https://www.tiktok.com/@" + Get(data, "unique_id").s)
    ensures !Truthy(Get(data, "unique_id")) && "url" !in data ==> r.Err?
    ensures r.Ok? ==> "unique_id" in data && "nickname" in data && r.value.uniqueId == data["unique_id"] && r.value.nickname == data["nickname"]
  {
    var d :- ProcessAuthor(data);
    var nickname :- Field(d, "nickname");
    var uniqueId :- Field(d, "unique_id");
    var url :- Field(d, "url");
    var avatar :- Field(d, "avatar");
    Ok(Author(nickname, uniqueId, url, avatar))
  }

  // --------------------------------------------------------------- Description

  /** A `text_extra` entry whose `type` is 1, i.e. a hashtag. */
  predicate IsHashtag(entry: Json) {
    entry.JObj? && IsOne(Get(entry.fields, "type"))
  }

  /** `entry["hashtag_name"]` when it is a string. */
  function HashtagName(entry: Json): string {
    if entry.JObj? && Get(entry.fields, "hashtag_name").JStr? then Get(entry.fields, "hashtag_name").s else ""
  }

  /** Every entry is a dict (it has `.get`) and every hashtag entry names a string. */
  predicate WellFormedTags(entries: seq<Json>) {
    forall k :: 0 <= k < |entries| ==>
      entries[k].JObj? && (IsHashtag(entries[k]) ==> Get(entries[k].fields, "hashtag_name").JStr?)
  }

  /** The `tags` comprehension: `hashtag_name` of every type-1 entry, in order, duplicates kept. */
  function TagNames(entries: seq<Json>): (tags: seq<string>)
    requires WellFormedTags(entries)
    ensures |tags| <= |entries|
    ensures tags == [] <==> forall k :: 0 <= k < |entries| ==> !IsHashtag(entries[k])
  {
    if entries == [] then []
    else
      var rest := TagNames(entries[1..]);
      if IsHashtag(entries[0]) then [HashtagName(entries[0])] + rest
      else
        assert forall k :: 1 <= k < |entries| ==> entries[k] == entries[1..][k - 1];
        rest
  }

  /** One hashtag step of `clean_desc`: lower-case, drop the first `#tag`, collapse whitespace. */
  function StripTag(desc: string, name: string): string {
    CollapseSpaces(RemoveFirst(Lower(desc), "#" + Lower(name)))
  }

  /** The text after the hashtag steps for `names`, in order. */
  function StripTags(desc: string, names: seq<string>): string
    decreases |names|
  {
    if names == [] then desc else StripTag(StripTags(desc, names[..|names| - 1]), names[|names| - 1])
  }

  /** What `clean_desc` returns for a string description and well-formed entries. */
  function CleanedDesc(desc: string, names: seq<string>): string {
    Strip(StripTags(desc, names))
  }

  /** After any hashtag step the text is lower-cased and has no run of whitespace. */
  lemma StripTagShape(desc: string, name: string)
    ensures IsLowered(StripTag(desc, name)) && NoSpaceRun(StripTag(desc, name))
  {
    LowerShape(desc);
    RemoveFirstKeepsLowered(Lower(desc), "#" + Lower(name));
    CollapseSpacesShape(RemoveFirst(Lower(desc), "#" + Lower(name)));
    CollapseSpacesKeepsLowered(RemoveFirst(Lower(desc), "#" + Lower(name)));
  }

  /** The cleaned description is stripped; with at least one hashtag it is also
      lower-cased with single spaces, and without one it is only stripped. */
  lemma CleanedDescShape(desc: string, names: seq<string>)
    ensures IsStripped(CleanedDesc(desc, names))
    ensures names != [] ==> IsLowered(CleanedDesc(desc, names)) && NoSpaceRun(CleanedDesc(desc, names))
    ensures names == [] ==> CleanedDesc(desc, names) == Strip(desc)
  {
    StripShape(StripTags(desc, names));
    if names != [] {
      StripTagShape(StripTags(desc, names[..|names| - 1]), names[|names| - 1]);
    }
  }

  /** " #n1 #n2 ...": hashtags appended to a description's text. */
  function TagSuffix(names: seq<string>): string {
    if names == [] then "" else " #" + names[0] + TagSuffix(names[1..])
  }

  /** A hashtag name as TikTok writes it: one lower-case word. */
  predicate PlainTag(name: string) {
    name != [] && IsLowered(name) && NoSpace(name)
  }

  lemma {:induction false} TagSuffixShape(names: seq<string>)
    requires forall k :: 0 <= k < |names| ==> PlainTag(names[k])
    ensures IsLowered(TagSuffix(names)) && SingleSpaced(TagSuffix(names))
    ensures names != [] ==> var t := TagSuffix(names);
      |t| >= 2 && t[0] == ' ' && t[1] == '#' && !IsSpace(t[|t| - 1])
    decreases |names|
  {
    if names != [] {
      var n := names[0];
      var rest := TagSuffix(names[1..]);
      TagSuffixShape(names[1..]);
      var head := " #" + n;
      assert forall i :: 2 <= i < |head| ==> head[i] == n[i - 2];
      assert SingleSpaced(head);
      assert head[|head| - 1] == n[|n| - 1];
      SingleSpacedConcat(head, rest);
      var t := head + rest;
      assert IsLowered(t) by {
        forall i | 0 <= i < |t| ensures !IsUpper(t[i]) {
          if i >= |head| { assert t[i] == rest[i - |head|]; } else if i >= 2 { assert t[i] == n[i - 2]; }
        }
      }
      if rest != [] { assert t[|t| - 1] == rest[|rest| - 1]; }
    }
  }

  lemma LowerTagged(text: string, n: string, t: string, tail: string)
    requires IsLowered(n) && IsLowered(t) && tail == " #" + n + t
    ensures Lower(text + tail) == Lower(text) + tail
  {
    assert IsLowered(tail) by {
      forall i | 0 <= i < |tail| ensures !IsUpper(tail[i]) {
        if i >= 2 + |n| { assert tail[i] == t[i - 2 - |n|]; } else if i >= 2 { assert tail[i] == n[i - 2]; }
      }
    }
    LowerConcat(text, tail);
    LowerOfLowered(tail);
  }

  lemma RemoveTagAfterText(lt: string, n: string, t: string, tail: string)
    requires '#' !in lt && tail == " #" + n + t
    ensures RemoveFirst(lt + tail, "#" + n) == lt + (" " + t)
  {
    var pre := lt + " ";
    var pat := "#" + n;
    var ls := lt + tail;
    assert ls == pre + (pat + t);
    assert ls[..|pre|] == pre;
    assert ls[|pre|..|pre| + |pat|] == pat;
    assert ls[|pre| + |pat|..] == t;
    assert '#' !in pre;
    FindFirst(ls, pat, |pre|);
    assert RemoveFirst(ls, pat) == pre + t;
    assert pre + t == lt + (" " + t);
  }

  /** The hashtag pattern of the first tag is found right after the text, and removed. */
  lemma TagRemoval(text: string, n: string, t: string, tail: string)
    requires '#' !in text && IsLowered(n) && IsLowered(t) && tail == " #" + n + t
    ensures RemoveFirst(Lower(text + tail), "#" + Lower(n)) == Lower(text) + (" " + t)
  {
    LowerTagged(text, n, t, tail);
    LowerOfLowered(n);
    LowerShape(text);
    RemoveTagAfterText(Lower(text), n, t, tail);
  }

  /** Hashtags behind one extra space collapse to the hashtags themselves. */
  lemma CollapseSpaceBeforeTags(t: string)
    requires |t| >= 2 && t[0] == ' ' && t[1] == '#' && SingleSpaced(t) && !IsSpace(t[|t| - 1])
    ensures CollapseSpaces(" " + t) == t
  {
    var u := t[1..];
    assert " " + t == "  " + u;
    CollapseDoubleSpace(u);
    assert SingleSpaced(u) by {
      forall i | 0 <= i < |u| && IsSpace(u[i]) ensures u[i] == ' ' && (i + 1 < |u| ==> !IsSpace(u[i + 1])) {
        assert u[i] == t[i + 1];
        if i + 1 < |u| { assert u[i + 1] == t[i + 2]; }
      }
    }
    assert u[|u| - 1] == t[|t| - 1];
    CollapseAfterWords(u, []);
    assert u + [] == u;
    assert t == " " + u;
  }

  /** What is left after the removal collapses back to the text and the remaining hashtags. */
  lemma TagCollapse(lt: string, rest: seq<string>)
    requires SingleSpaced(lt) && IsStripped(lt)
    requires forall k :: 0 <= k < |rest| ==> PlainTag(rest[k])
    ensures CollapseSpaces(lt + (" " + TagSuffix(rest))) == lt + (if rest == [] then " " else TagSuffix(rest))
  {
    var t := TagSuffix(rest);
    TagSuffixShape(rest);
    CollapseAfterWords(lt, " " + t);
    if rest != [] {
      CollapseSpaceBeforeTags(t);
    } else {
      assert CollapseSpaces(" ") == " " + CollapseSpaces(DropSpaces(""));
    }
  }

  /** One hashtag step on a text followed by its hashtags drops the first of them. */
  lemma TagStep(text: string, n: string, rest: seq<string>, tail: string)
    requires SingleSpaced(text) && IsStripped(text) && '#' !in text
    requires PlainTag(n) && forall k :: 0 <= k < |rest| ==> PlainTag(rest[k])
    requires tail == " #" + n + TagSuffix(rest)
    ensures StripTag(text + tail, n) == Lower(text) + (if rest == [] then " " else TagSuffix(rest))
  {
    TagSuffixShape(rest);
    TagRemoval(text, n, TagSuffix(rest), tail);
    LowerShape(text);
    TagCollapse(Lower(text), rest);
  }

  /** The hashtags from `k` on, written after the text. */
  lemma TagSuffixFrom(names: seq<string>, k: nat)
    requires k < |names|
    ensures TagSuffix(names[k..]) == " #" + names[k] + TagSuffix(names[k + 1..])
    ensures forall j :: k <= j < |names| ==> names[j] == names[k..][j - k]
  {
    assert names[k..][1..] == names[k + 1..];
  }

  /** `StripTags` on a non-empty prefix is one more step after the shorter prefix. */
  lemma StripTagsStep(d: string, names: seq<string>, k: nat)
    requires 0 < k <= |names|
    ensures StripTags(d, names[..k]) == StripTag(StripTags(d, names[..k - 1]), names[k - 1])
  {
    assert names[..k][..k - 1] == names[..k - 1];
  }

  /** The step for hashtag `k - 1`, given where the earlier steps left the text. */
  lemma TagStepAt(text: string, lt: string, names: seq<string>, k: nat)
    requires SingleSpaced(lt) && IsStripped(lt) && '#' !in lt && Lower(lt) == Lower(text)
    requires forall j :: 0 <= j < |names| ==> PlainTag(names[j])
    requires 0 < k <= |names|
    requires StripTags(text + TagSuffix(names), names[..k - 1]) == lt + TagSuffix(names[k - 1..])
    ensures StripTags(text + TagSuffix(names), names[..k]) ==
      Lower(text) + (if k == |names| then " " else TagSuffix(names[k..]))
  {
    var d := text + TagSuffix(names);
    StripTagsStep(d, names, k);
    TagSuffixFrom(names, k - 1);
    var rest := names[k..];
    assert forall j :: 0 <= j < |rest| ==> rest[j] == names[k + j];
    TagStep(lt, names[k - 1], rest, TagSuffix(names[k - 1..]));
  }

  lemma {:induction false} StripTagsPrefix(text: string, names: seq<string>, k: nat)
    requires SingleSpaced(text) && IsStripped(text) && '#' !in text
    requires forall j :: 0 <= j < |names| ==> PlainTag(names[j])
    requires 0 < k <= |names|
    ensures StripTags(text + TagSuffix(names), names[..k]) ==
      Lower(text) + (if k == |names| then " " else TagSuffix(names[k..]))
    decreases k
  {
    if k == 1 {
      assert names[..0] == [] && names[0..] == names;
      TagStepAt(text, text, names, 1);
    } else {
      StripTagsPrefix(text, names, k - 1);
      LowerShape(text);
      LowerOfLowered(Lower(text));
      TagStepAt(text, Lower(text), names, k);
    }
  }

  /** A description made of single-spaced text followed only by its hashtags cleans to the
      text, lower-cased when there is at least one hashtag and unchanged otherwise. */
  lemma CleanedDescOfTaggedText(text: string, names: seq<string>)
    requires SingleSpaced(text) && IsStripped(text) && '#' !in text
    requires forall j :: 0 <= j < |names| ==> PlainTag(names[j])
    ensures CleanedDesc(text + TagSuffix(names), names) == if names == [] then text else Lower(text)
  {
    if names == [] {
      assert text + TagSuffix(names) == text;
      StripOfStripped(text);
    } else {
      StripTagsPrefix(text, names, |names|);
      assert names[..|names|] == names;
      LowerShape(text);
      StripOfStripped(Lower(text));
    }
  }

  /** `clean_desc(text_extra, desc)` on the entries a `for` loop walks. */
  function CleanDescSpec(entries: seq<Json>, desc: Json): Result<string, Fault> {
    if WellFormedTags(entries) && desc.JStr? then Ok(CleanedDesc(desc.s, TagNames(entries)))
    else Err(NoAttribute)
  }

  lemma {:induction false} TagNamesAppend(entries: seq<Json>, e: Json)
    requires WellFormedTags(entries + [e])
    ensures WellFormedTags(entries)
    ensures TagNames(entries + [e]) == TagNames(entries) + (if IsHashtag(e) then [HashtagName(e)] else [])
    decreases |entries|
  {
    var all := entries + [e];
    assert forall k :: 0 <= k < |entries| ==> entries[k] == all[k];
    if entries != [] {
      assert all[1..] == entries[1..] + [e];
      TagNamesAppend(entries[1..], e);
    }
  }

  lemma WellFormedAppend(entries: seq<Json>, e: Json)
    requires WellFormedTags(entries)
    requires e.JObj? && (IsHashtag(e) ==> Get(e.fields, "hashtag_name").JStr?)
    ensures WellFormedTags(entries + [e])
  {
    var all := entries + [e];
    assert forall k :: 0 <= k < |entries| ==> all[k] == entries[k];
  }

  /** The hashtag steps for one more name are one more step. */
  lemma StripTagsSnoc(desc: string, names: seq<string>, n: string)
    ensures StripTags(desc, names + [n]) == StripTag(StripTags(desc, names), n)
  {
    assert (names + [n])[..|names|] == names;
  }

  /** What the loop of `clean_desc` holds after the given entries: the description so
      far, or the AttributeError that stopped it. */
  function CleanLoop(entries: seq<Json>, desc: Json): Result<Json, Fault>
    decreases |entries|
  {
    if entries == [] then Ok(desc)
    else
      var d :- CleanLoop(entries[..|entries| - 1], desc);
      var tag := entries[|entries| - 1];
      if !tag.JObj? then Err(NoAttribute)
      else if !IsOne(Get(tag.fields, "type")) then Ok(d)
      else if !Get(tag.fields, "hashtag_name").JStr? || !d.JStr? then Err(NoAttribute)
      else Ok(JStr(StripTag(d.s, Get(tag.fields, "hashtag_name").s)))
  }

  /** Once the loop has failed, the later entries do not matter. */
  lemma {:induction false} CleanLoopFailed(entries: seq<Json>, i: nat, desc: Json)
    requires i <= |entries| && CleanLoop(entries[..i], desc).Err?
    ensures CleanLoop(entries, desc) == CleanLoop(entries[..i], desc)
    decreases |entries| - i
  {
    if i < |entries| {
      assert entries[..i + 1][..i] == entries[..i];
      CleanLoopFailed(entries, i + 1, desc);
    } else {
      assert entries[..i] == entries;
    }
  }

  /** A loop that got through every entry saw only well-formed ones. */
  lemma {:induction false} CleanLoopWellFormed(entries: seq<Json>, desc: Json)
    ensures CleanLoop(entries, desc).Ok? ==> WellFormedTags(entries)
    ensures CleanLoop(entries, desc).Err? ==> CleanLoop(entries, desc).error == NoAttribute
    decreases |entries|
  {
    if entries != [] {
      var init := entries[..|entries| - 1];
      var tag := entries[|entries| - 1];
      assert entries == init + [tag];
      CleanLoopWellFormed(init, desc);
      if CleanLoop(entries, desc).Ok? {
        WellFormedAppend(init, tag);
      }
    }
  }

  /** On well-formed entries the loop holds the description after the hashtag steps,
      unless a hashtag meets a description that is not a string. */
  lemma {:induction false} CleanLoopValue(entries: seq<Json>, desc: Json)
    ensures WellFormedTags(entries) && (TagNames(entries) == [] || desc.JStr?) ==>
      CleanLoop(entries, desc) == Ok(if TagNames(entries) == [] then desc else JStr(StripTags(desc.s, TagNames(entries))))
    decreases |entries|
  {
    if entries != [] && WellFormedTags(entries) && (TagNames(entries) == [] || desc.JStr?) {
      var init := entries[..|entries| - 1];
      var tag := entries[|entries| - 1];
      assert entries == init + [tag];
      TagNamesAppend(init, tag);
      var names := TagNames(init);
      CleanLoopValue(init, desc);
      if IsHashtag(tag) {
        StripTagsSnoc(desc.s, names, HashtagName(tag));
      } else {
        assert names + [] == names;
      }
    }
  }

  /** A hashtag met while the description is still not a string stops the loop. */
  lemma {:induction false} CleanLoopNeedsString(entries: seq<Json>, desc: Json)
    requires CleanLoop(entries, desc).Ok?
    ensures WellFormedTags(entries) && (TagNames(entries) == [] || desc.JStr?)
    decreases |entries|
  {
    CleanLoopWellFormed(entries, desc);
    if entries != [] && !desc.JStr? {
      var init := entries[..|entries| - 1];
      var tag := entries[|entries| - 1];
      assert entries == init + [tag];
      TagNamesAppend(init, tag);
      CleanLoopNeedsString(init, desc);
      CleanLoopValue(init, desc);
    }
  }

  /** `clean_desc` is the loop followed by `strip`, which fails unless the loop left a string. */
  lemma CleanLoopThenStrip(entries: seq<Json>, desc: Json)
    ensures CleanDescSpec(entries, desc) ==
      match CleanLoop(entries, desc)
      case Ok(d) => if d.JStr? then Ok(Strip(d.s)) else Err(NoAttribute)
      case Err(e) => Err(e)
  {
    CleanLoopWellFormed(entries, desc);
    CleanLoopValue(entries, desc);
    if CleanLoop(entries, desc).Ok? {
      CleanLoopNeedsString(entries, desc);
    }
  }

  /** The loop of `clean_desc`: for each type-1 entry, one `StripTag` step; then `strip`. */
  method CleanDesc(entries: seq<Json>, desc: Json) returns (r: Result<string, Fault>)
    ensures r == CleanDescSpec(entries, desc)
  {
    var d := desc;
    var i := 0;
    while i < |entries|
      invariant 0 <= i <= |entries|
      invariant CleanLoop(entries[..i], desc) == Ok(d)
    {
      var tag := entries[i];
      assert entries[..i + 1][..i] == entries[..i] && entries[..i + 1][i] == tag;
      if !tag.JObj? {
        CleanLoopFailed(entries, i + 1, desc);
        CleanLoopThenStrip(entries, desc);
        return Err(NoAttribute);
      }
      if IsOne(Get(tag.fields, "type")) {
        var name := Get(tag.fields, "hashtag_name");
        if !name.JStr? || !d.JStr? {
          CleanLoopFailed(entries, i + 1, desc);
          CleanLoopThenStrip(entries, desc);
          return Err(NoAttribute);
        }
        d := JStr(StripTag(d.s, name.s));
      }
      i := i + 1;
    }
    assert entries[..i] == entries;
    CleanLoopThenStrip(entries, desc);
    if !d.JStr? {
      return Err(NoAttribute);
    }
    r := Ok(Strip(d.s));
  }

  datatype Description = Description(raw: Json, cleaned: string, tags: seq<string>)

  /** `Description.from_dict`, run on the whole `aweme_detail` dict. */
  function DescriptionFromDict(data: Dict): (r: Result<Description, Fault>)
    ensures r.Ok? ==> Iterable(Get(data, "text_extra")).Ok?
    ensures r.Ok? ==> var entries := Iterable(Get(data, "text_extra")).value;
      && WellFormedTags(entries) && Get(data, "desc").JStr?
      && r.value.tags == TagNames(entries)
      && r.value.cleaned == CleanedDesc(Get(data, "desc").s, r.value.tags)
    ensures r.Ok? && Truthy(Get(data, "desc")) ==> r.value.raw == Get(data, "desc")
  {
    var raw := Get(data, "desc");
    var d := if Truthy(raw) then data["raw" := raw] else data;
    var entries :- Iterable(Get(d, "text_extra"));
    var cleaned :- CleanDescSpec(entries, raw);
    Ok(Description(Get(d, "raw"), cleaned, TagNames(entries)))
  }

  // ---------------------------------------------------------------- TikTokData

  /** A field of `TikTokData` the processing either rebuilt as a record or left as it came. */
  datatype Part<T> = Built(value: T) | Kept(raw: Json)

  datatype TikTokData = TikTokData(
    id: Json, video: Part<Video>, created: Json, statistics: Part<Statistics>,
    shareUrl: Json, description: Description, music: Part<Music>, author: Part<Author>)

  /** A key the processing left alone: what the constructor receives, or its absence. */
  function Untouched<T>(d: Dict, key: string): Option<Part<T>> {
    if key in d then Some(Kept(d[key])) else None
  }

  function Present<T>(slot: Option<Part<T>>, name: string): Result<Part<T>, Fault> {
    if slot.Some? then Ok(slot.value) else Err(MissingField(name))
  }

  /** A plain field: the value the constructor receives, or its absence. */
  function Plain(d: Dict, key: string): Option<Json> {
    if key in d then Some(d[key]) else None
  }

  function PresentPlain(slot: Option<Json>, name: string): Result<Json, Fault> {
    if slot.Some? then Ok(slot.value) else Err(MissingField(name))
  }

  /** `if value := d.get(key): d[key] = Record.from_dict(value)`; `_process_dict` calls
      `.get`, so a truthy value must be a dict. */
  function NestedSlot<T>(d: Dict, key: string, build: Dict -> Result<T, Fault>): (r: Result<Option<Part<T>>, Fault>)
    ensures r.Ok? && Truthy(Get(d, key)) ==>
      d[key].JObj? && build(d[key].fields).Ok? && r.value == Some(Built(build(d[key].fields).value))
    ensures !Truthy(Get(d, key)) ==> r == Ok(Untouched(d, key))
  {
    var x := Get(d, key);
    if !Truthy(x) then Ok(Untouched(d, key))
    else if x.JObj? then
      var v :- build(x.fields);
      Ok(Some(Built(v)))
    else Err(NoAttribute)
  }

  /** `if aweme_id := data.get("aweme_id"): data["id"] = int(aweme_id)`. */
  function IdSlot(data: Dict): (r: Result<Option<Json>, Fault>)
    ensures r.Ok? && Truthy(Get(data, "aweme_id")) ==>
      r.value.Some? && r.value.value.JInt? && PyInt(data["aweme_id"]) == Ok(r.value.value.i)
    ensures !Truthy(Get(data, "aweme_id")) ==> r == Ok(Plain(data, "id"))
  {
    var awemeId := Get(data, "aweme_id");
    if Truthy(awemeId) then
      var n :- PyInt(awemeId);
      Ok(Some(JInt(n)))
    else Ok(Plain(data, "id"))
  }

  /** `share_url.split(".html")[0]`. */
  function CanonicalShareUrl(share: Json): (r: Result<string, Fault>)
    ensures r.Ok? <==> share.JStr?
    ensures r.Ok? ==> !Contains(r.value, ".html") && |r.value| <= |share.s| && r.value == share.s[..|r.value|]
    ensures r.Ok? && Contains(share.s, ".html") ==> StartsAt(share.s, |r.value|, ".html")
    ensures r.Ok? && !Contains(share.s, ".html") ==> r.value == share.s
  {
    if share.JStr? then
      CutAtShape(share.s, ".html");
      Ok(CutAt(share.s, ".html"))
    else Err(NoAttribute)
  }

  /** `if share_url := data.get("share_url"): data["share_url"] = share_url.split(".html")[0]`. */
  function ShareSlot(data: Dict): (r: Result<Option<Json>, Fault>)
    ensures r.Ok? && Truthy(Get(data, "share_url")) ==>
      CanonicalShareUrl(data["share_url"]).Ok? && r.value == Some(JStr(CanonicalShareUrl(data["share_url"]).value))
    ensures !Truthy(Get(data, "share_url")) ==> r == Ok(Plain(data, "share_url"))
  {
    if Truthy(Get(data, "share_url")) then
      var u :- CanonicalShareUrl(Get(data, "share_url"));
      Ok(Some(JStr(u)))
    else Ok(Plain(data, "share_url"))
  }

  /** The values `TikTokData._process_dict` leaves under the keys the record declares
      (None where the key is absent). */
  datatype Slots = Slots(
    id: Option<Json>, video: Option<Part<Video>>, created: Option<Json>, statistics: Option<Part<Statistics>>,
    shareUrl: Option<Json>, description: Description, music: Option<Part<Music>>, author: Option<Part<Author>>)

  /** `TikTokData._process_dict`. */
  function ProcessTikTok(data: Dict): (r: Result<Slots, Fault>)
    ensures r.Ok? && Truthy(Get(data, "aweme_id")) ==>
      r.value.id.Some? && r.value.id.value.JInt? && PyInt(data["aweme_id"]) == Ok(r.value.id.value.i)
    ensures r.Ok? && Truthy(Get(data, "share_url")) ==>
      CanonicalShareUrl(data["share_url"]).Ok? && r.value.shareUrl == Some(JStr(CanonicalShareUrl(data["share_url"]).value))
    ensures r.Ok? ==> DescriptionFromDict(data) == Ok(r.value.description)
    ensures r.Ok? && Truthy(Get(data, "video")) ==>
      data["video"].JObj? && VideoFromDict(data["video"].fields).Ok?
      && r.value.video == Some(Built(VideoFromDict(data["video"].fields).value))
    ensures r.Ok? && Truthy(Get(data, "statistics")) ==>
      data["statistics"].JObj? && StatisticsFromDict(data["statistics"].fields).Ok?
      && r.value.statistics == Some(Built(StatisticsFromDict(data["statistics"].fields).value))
    ensures r.Ok? && Truthy(Get(data, "music")) ==>
      data["music"].JObj? && MusicFromDict(data["music"].fields).Ok?
      && r.value.music == Some(Built(MusicFromDict(data["music"].fields).value))
    ensures r.Ok? && Truthy(Get(data, "author")) ==>
      data["author"].JObj? && AuthorFromDict(data["author"].fields).Ok?
      && r.value.author == Some(Built(AuthorFromDict(data["author"].fields).value))
    ensures r.Ok? && Truthy(Get(data, "create_time")) ==> r.value.created == Some(data["create_time"])
  {
    var id :- IdSlot(data);
    var video :- NestedSlot(data, "video", VideoFromDict);
    var created := if Truthy(Get(data, "create_time")) then Some(Get(data, "create_time")) else Plain(data, "created");
    var statistics :- NestedSlot(data, "statistics", StatisticsFromDict);
    var share :- ShareSlot(data);
    // `Description.from_dict` reads `desc`, `text_extra` and `raw`, which the steps above leave alone.
    var description :- DescriptionFromDict(data);
    var music :- NestedSlot(data, "music", MusicFromDict);
    var author :- NestedSlot(data, "author", AuthorFromDict);
    Ok(Slots(id, video, created, statistics, share, description, music, author))
  }

  /** The attrs constructor: TypeError when a declared field is absent. */
  function Construct(slots: Slots): (r: Result<TikTokData, Fault>)
    ensures r.Ok? <==> && slots.id.Some? && slots.video.Some? && slots.created.Some? && slots.statistics.Some?
                       && slots.shareUrl.Some? && slots.music.Some? && slots.author.Some?
    ensures r.Ok? ==> && slots.id == Some(r.value.id) && slots.video == Some(r.value.video)
                      && slots.created == Some(r.value.created) && slots.statistics == Some(r.value.statistics)
                      && slots.shareUrl == Some(r.value.shareUrl) && slots.description == r.value.description
                      && slots.music == Some(r.value.music) && slots.author == Some(r.value.author)
  {
    var id :- PresentPlain(slots.id, "id");
    var video :- Present(slots.video, "video");
    var created :- PresentPlain(slots.created, "created");
    var statistics :- Present(slots.statistics, "statistics");
    var share :- PresentPlain(slots.shareUrl, "share_url");
    var music :- Present(slots.music, "music");
    var author :- Present(slots.author, "author");
    Ok(TikTokData(id, video, created, statistics, share, slots.description, music, author))
  }

  /** `TikTokData.from_dict(aweme_detail)`: every step runs before the constructor checks
      which fields it received. */
  function TikTokDataFromDict(data: Dict): (r: Result<TikTokData, Fault>)
    ensures r.Ok? && Truthy(Get(data, "aweme_id")) ==> r.value.id.JInt? && PyInt(data["aweme_id"]) == Ok(r.value.id.i)
    ensures r.Ok? && Truthy(Get(data, "share_url")) ==>
      CanonicalShareUrl(data["share_url"]).Ok? && r.value.shareUrl == JStr(CanonicalShareUrl(data["share_url"]).value)
    ensures r.Ok? ==> DescriptionFromDict(data) == Ok(r.value.description)
    ensures r.Ok? && Truthy(Get(data, "video")) ==>
      data["video"].JObj? && r.value.video.Built? && VideoFromDict(data["video"].fields) == Ok(r.value.video.value)
    ensures r.Ok? && Truthy(Get(data, "statistics")) ==>
      data["statistics"].JObj? && r.value.statistics.Built?
      && StatisticsFromDict(data["statistics"].fields) == Ok(r.value.statistics.value)
    ensures r.Ok? && Truthy(Get(data, "music")) ==>
      data["music"].JObj? && r.value.music.Built? && MusicFromDict(data["music"].fields) == Ok(r.value.music.value)
    ensures r.Ok? && Truthy(Get(data, "author")) ==>
      data["author"].JObj? && r.value.author.Built? && AuthorFromDict(data["author"].fields) == Ok(r.value.author.value)
    ensures r.Ok? && Truthy(Get(data, "create_time")) ==> r.value.created == data["create_time"]
    ensures r.Ok? && !Truthy(Get(data, "aweme_id")) ==> "id" in data && r.value.id == data["id"]
  {
    var slots :- ProcessTikTok(data);
    Construct(slots)
  }

  /** The acceptance test of `get_tiktok` on the decoded response body: data only when
      `aweme_detail` is present and `status_code == 0`, else ValueError. */
  function GetTiktok(response: Json): (r: Result<TikTokData, Fault>)
    ensures r.Ok? ==> response.JObj? && Truthy(Get(response.fields, "aweme_detail"))
                      && IsZero(Get(response.fields, "status_code"))
    ensures response.JObj? && !(Truthy(Get(response.fields, "aweme_detail")) && IsZero(Get(response.fields, "status_code")))
            ==> r == Err(NoTikTokData)
    ensures r.Ok? ==> response.fields["aweme_detail"].JObj? && r == TikTokDataFromDict(response.fields["aweme_detail"].fields)
  {
    if !response.JObj? then Err(NoAttribute)
    else
      var detail := Get(response.fields, "aweme_detail");
      if Truthy(detail) && IsZero(Get(response.fields, "status_code")) then
        if detail.JObj? then TikTokDataFromDict(detail.fields) else Err(NoAttribute)
      else Err(NoTikTokData)
  }

  // -------------------------------------------------------------------- lemmas

  /** The text of the example description: single-spaced, stripped, no `#`. */
  lemma ExampleText(t: string)
    requires t == "ook at my cat"
    ensures var text := "L" + t; SingleSpaced(text) && IsStripped(text) && '#' !in text
  {
    var text := "L" + t;
    forall i | 0 <= i < |text|
      ensures IsSpace(text[i]) <==> i == 4 || i == 7 || i == 10
      ensures text[i] != '#'
    {
    }
  }

  /** The hashtags of the example, written after its text. */
  lemma ExampleTags(names: seq<string>)
    requires names == ["cats", "funny"]
    ensures TagSuffix(names) == " #cats #funny"
  {
    assert names[1..] == ["funny"] && names[1..][1..] == [];
    assert TagSuffix(["funny"]) == " #" + "funny" + TagSuffix([]);
    assert TagSuffix(names) == " #" + "cats" + TagSuffix(["funny"]);
  }

  /** The hashtags of the example are plain lower-case words. */
  lemma ExampleTagsPlain(names: seq<string>)
    requires names == ["cats", "funny"]
    ensures forall j :: 0 <= j < |names| ==> PlainTag(names[j])
  {
    forall j | 0 <= j < |names| ensures PlainTag(names[j]) {
      PlainExampleTags();
    }
  }

  lemma PlainExampleTags()
    ensures PlainTag("cats") && PlainTag("funny")
  {
  }

  /** Cleaning the description "Look at my cat #cats #funny" of a video tagged #cats
      and #funny keeps every word of the text, lower-cased: the result is
      "look at my cat". */
  lemma CleanedDescExample(t: string, desc: string)
    requires t == "ook at my cat" && desc == "L" + t + " #cats #funny"
    ensures CleanedDesc(desc, ["cats", "funny"]) == "l" + t
  {
    ExampleTags(["cats", "funny"]);
    ExampleTextCleaned(t, desc);
    ExampleTextLowered(t);
  }

  lemma ExampleTextCleaned(t: string, desc: string)
    requires t == "ook at my cat" && desc == "L" + t + TagSuffix(["cats", "funny"])
    ensures CleanedDesc(desc, ["cats", "funny"]) == Lower("L" + t)
  {
    var names := ["cats", "funny"];
    ExampleText(t);
    ExampleTagsPlain(names);
    CleanedDescOfTaggedText("L" + t, names);
  }

  lemma ExampleTextLowered(t: string)
    requires t == "ook at my cat"
    ensures Lower("L" + t) == "l" + t
  {
    LowerCapitalised('L', t);
    assert LowerChar('L') == 'l';
  }

  /** The canonical share URL drops the ".html" suffix and the query after it. */
  lemma CanonicalShareUrlExample()
    ensures CanonicalShareUrl(JStr("@a/video/1.html?lang=en")) == Ok("@a/video/1")
  {
    var s := "@a/video/1.html?lang=en";
    assert s[..10] == "@a/video/1";
    FindFirst(s, ".html", 10);
  }

  /** Canonicalising a canonical share URL changes nothing. */
  lemma CanonicalShareUrlIdempotent(share: Json)
    ensures CanonicalShareUrl(share).Ok? ==>
      CanonicalShareUrl(JStr(CanonicalShareUrl(share).value)) == CanonicalShareUrl(share)
  {
    if share.JStr? {
      CutAtShape(share.s, ".html");
    }
  }
}
