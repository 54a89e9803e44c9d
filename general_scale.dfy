/**
 * The decision rules of the general commands (`tiktoker/scales/general.py`): the
 * partial update of a guild's config, the privacy choices over the opt-out and usage
 * collections, and the statistics of the info command.
 */
module GeneralScale {
  import opened Wrappers
  import opened Text
  import opened Tables

  // ---------------------------------------------------------------------- /config

  /** The four optional arguments of `/config`; `None` leaves a setting alone. */
  datatype ConfigOptions = ConfigOptions(
    autoEmbed: Option<bool>, deleteOrigin: Option<bool>, suppressOriginEmbed: Option<bool>, language: Option<string>)

  predicate NoOptions(o: ConfigOptions) {
    o.autoEmbed.None? && o.deleteOrigin.None? && o.suppressOriginEmbed.None? && o.language.None?
  }

  function OrElse<T>(x: Option<T>, d: T): T {
    if x.Some? then x.value else d
  }

  /** Each given option overwrites its own setting. */
  function Merge(c: Config, o: ConfigOptions): Config {
    c.(autoEmbed := OrElse(o.autoEmbed, c.autoEmbed),
       deleteOrigin := OrElse(o.deleteOrigin, c.deleteOrigin),
       suppressOriginEmbed := OrElse(o.suppressOriginEmbed, c.suppressOriginEmbed),
       language := OrElse(o.language, c.language))
  }

  /** A given option sets exactly its own field and an absent one keeps it; the guild
      never changes; no options change nothing; applying the same options twice is
      applying them once; options that give every setting fix the result whatever the
      config was before. */
  lemma MergeSpec(c: Config, o: ConfigOptions, c2: Config)
    ensures var m := Merge(c, o);
      && m.guildId == c.guildId
      && (o.autoEmbed.Some? ==> m.autoEmbed == o.autoEmbed.value) && (o.autoEmbed.None? ==> m.autoEmbed == c.autoEmbed)
      && (o.deleteOrigin.Some? ==> m.deleteOrigin == o.deleteOrigin.value) && (o.deleteOrigin.None? ==> m.deleteOrigin == c.deleteOrigin)
      && (o.suppressOriginEmbed.Some? ==> m.suppressOriginEmbed == o.suppressOriginEmbed.value)
      && (o.suppressOriginEmbed.None? ==> m.suppressOriginEmbed == c.suppressOriginEmbed)
      && (o.language.Some? ==> m.language == o.language.value) && (o.language.None? ==> m.language == c.language)
      && (NoOptions(o) ==> m == c)
      && Merge(m, o) == m
    ensures o.autoEmbed.Some? && o.deleteOrigin.Some? && o.suppressOriginEmbed.Some? && o.language.Some? && c2.guildId == c.guildId ==>
      Merge(c, o) == Merge(c2, o)
  {
  }

  /** What `/config` answers. `Unbound` is the invoker without the Manage Server
      permission: the refusal reads `config` before anything assigned it, so the handler
      raises and nothing is sent or stored. */
  datatype ConfigReply = Unbound | Shown(config: Config)

  /** The reply and the config table after `/config`. */
  function SetupConfigOutcome(m: ConfigMap, guildId: int, allowed: bool, o: ConfigOptions): (ConfigReply, ConfigMap) {
    if !allowed then (Unbound, m)
    else
      var (c, m1) := GetOrCreate(m, guildId);
      if NoOptions(o) then (Shown(c), m1)
      else (Shown(Merge(c, o)), m1[guildId := Merge(c, o)])
  }

  /** Without permission nothing changes. With no options the current config is shown and
      only a missing config is created. Otherwise the shown config is the stored one: the
      guild's config, or the defaults, with the given options applied. Every other guild
      keeps its config and the table stays keyed by guild. */
  lemma SetupConfigSpec(m: ConfigMap, guildId: int, allowed: bool, o: ConfigOptions)
    requires ValidConfigs(m)
    ensures var (r, m') := SetupConfigOutcome(m, guildId, allowed, o);
      && ValidConfigs(m')
      && (!allowed <==> r == Unbound)
      && (!allowed ==> m' == m)
      && (allowed && NoOptions(o) ==> r == Shown(GetOrCreate(m, guildId).0) && m' == GetOrCreate(m, guildId).1)
      && (allowed ==> guildId in m' && r == Shown(m'[guildId]) && r.config == Merge(GetOrCreate(m, guildId).0, o))
      && (forall g :: g in m && g != guildId ==> g in m' && m'[g] == m[g])
  {
    GetOrCreateSpec(m, guildId);
    if allowed {
      MergeSpec(GetOrCreate(m, guildId).0, o, GetOrCreate(m, guildId).0);
    }
  }

  /** `setup_config`: read the config, overwrite the given settings one by one, save. */
  method SetupConfig(configs: ConfigTable, guildId: int, allowed: bool, o: ConfigOptions) returns (r: ConfigReply)
    requires configs.Valid()
    modifies configs
    ensures configs.Valid()
    ensures (r, configs.configs) == SetupConfigOutcome(old(configs.configs), guildId, allowed, o)
  {
    SetupConfigSpec(configs.configs, guildId, allowed, o);
    if !allowed {
      return Unbound;
    }
    var config := configs.GetGuildConfig(guildId);
    if o.autoEmbed.None? && o.deleteOrigin.None? && o.suppressOriginEmbed.None? && o.language.None? {
      return Shown(config);
    }
    if o.autoEmbed.Some? {
      config := config.(autoEmbed := o.autoEmbed.value);
    }
    if o.deleteOrigin.Some? {
      config := config.(deleteOrigin := o.deleteOrigin.value);
    }
    if o.suppressOriginEmbed.Some? {
      config := config.(suppressOriginEmbed := o.suppressOriginEmbed.value);
    }
    if o.language.Some? {
      config := config.(language := o.language.value);
    }
    configs.Save(config);
    r := Shown(config);
  }

  // ---------------------------------------------------------- /privacy usage data

  datatype PrivacyReply = CurrentState(optedOut: bool) | SharingThanks | OptedOutNotice | DeletedNotice | NoReply

  datatype PrivacyState = PrivacyState(optedOut: set<int>, rows: seq<UsageRow>)

  /** `privacy_options`: report, opt in (`"yes"`), opt out (`"no"`), or anonymise this
      guild's rows (`"delete"`). The reply is sent before the store is touched, so a
      second opt-out is answered and then fails on the unique index. */
  function PrivacyOutcome(st: PrivacyState, guildId: int, userId: int, collect: Option<string>): (PrivacyReply, PrivacyState, Option<DbError>) {
    match collect
    case None => (CurrentState(userId in st.optedOut), st, None)
    case Some(c) =>
      if c == "yes" then (SharingThanks, st.(optedOut := RemoveOptOut(st.optedOut, userId)), None)
      else if c == "no" then
        match AddOptOut(st.optedOut, userId)
        case Ok(s) => (OptedOutNotice, st.(optedOut := s), None)
        case Err(e) => (OptedOutNotice, st, Some(e))
      else if c == "delete" then (DeletedNotice, st.(rows := Scrubbed(st.rows, guildId, userId)), None)
      else (NoReply, st, None)
  }

  /** No choice only reports. After "yes" the user is opted in and after "no" opted out,
      a repeated "no" failing; only "delete" touches the rows and only "yes" and "no"
      touch the opt-outs, of this user alone. */
  lemma PrivacySpec(st: PrivacyState, guildId: int, userId: int, collect: Option<string>)
    ensures var (reply, st', err) := PrivacyOutcome(st, guildId, userId, collect);
      && (collect.None? ==> reply == CurrentState(userId in st.optedOut) && st' == st && err.None?)
      && (collect == Some("yes") ==> userId !in st'.optedOut && err.None?)
      && (collect == Some("no") ==> userId in st'.optedOut && (err.Some? <==> userId in st.optedOut))
      && (collect != Some("delete") ==> st'.rows == st.rows)
      && (collect != Some("yes") && collect != Some("no") ==> st'.optedOut == st.optedOut)
      && (forall v :: v != userId ==> (v in st'.optedOut <==> v in st.optedOut))
  {
    OptOutRoundTrip(st.optedOut, userId);
  }

  /** "delete" keeps every row, leaves none of this guild naming the user, and leaves
      every other guild's rows alone. */
  lemma PrivacyDeleteSpec(st: PrivacyState, guildId: int, userId: int)
    ensures var st' := PrivacyOutcome(st, guildId, userId, Some("delete")).1;
      && st'.optedOut == st.optedOut
      && |st'.rows| == |st.rows|
      && OfUser(OfGuild(st'.rows, guildId), userId) == []
      && forall g :: g != guildId ==> OfGuild(st'.rows, g) == OfGuild(st.rows, g)
  {
    PrivacyDeleteScrubs(st, guildId, userId);
    ScrubbedSpec(st.rows, guildId, userId);
    ScrubbedForgetsUser(st.rows, guildId, userId);
    ScrubbedGuildForgetsUser(st.rows, guildId, userId);
  }

  lemma PrivacyDeleteScrubs(st: PrivacyState, guildId: int, userId: int)
    ensures PrivacyOutcome(st, guildId, userId, Some("delete")).1 == st.(rows := Scrubbed(st.rows, guildId, userId))
  {
  }

  /** No row names the user, so none is kept. */
  lemma {:induction false} OfUserEmpty(rows: seq<UsageRow>, userId: int)
    requires forall x :: x in rows ==> x.userId != Some(userId)
    ensures OfUser(rows, userId) == []
    decreases |rows|
  {
    if rows != [] {
      assert rows[0] in rows;
      assert forall x :: x in rows[1..] ==> x in rows;
      OfUserEmpty(rows[1..], userId);
    }
  }

  lemma ScrubbedGuildForgetsUser(rows: seq<UsageRow>, guildId: int, userId: int)
    ensures OfUser(OfGuild(Scrubbed(rows, guildId, userId), guildId), userId) == []
  {
    var s := Scrubbed(rows, guildId, userId);
    forall i | 0 <= i < |s| && s[i].guildId == guildId ensures s[i].userId != Some(userId) {
      assert s[i] == ScrubRow(rows[i], guildId, userId);
    }
    var og := OfGuild(s, guildId);
    forall x | x in og ensures x.userId != Some(userId) {
      var i :| 0 <= i < |s| && s[i] == x;
    }
    OfUserEmpty(og, userId);
  }

  /** Opting out and back in restores the opt-out set of a user who had opted in. */
  lemma OptOutThenIn(st: PrivacyState, guildId: int, userId: int)
    requires userId !in st.optedOut
    ensures var (_, st1, _) := PrivacyOutcome(st, guildId, userId, Some("no"));
      PrivacyOutcome(st1, guildId, userId, Some("yes")).1 == st
  {
    OptOutRoundTrip(st.optedOut, userId);
  }

  /** `privacy_options` over the stores; it also reads the guild's config first. */
  method PrivacyOptions(configs: ConfigTable, optOut: OptOutTable, usage: UsageTable,
                        guildId: int, userId: int, collect: Option<string>)
      returns (reply: PrivacyReply, err: Option<DbError>)
    requires configs.Valid()
    modifies configs, optOut, usage
    ensures configs.Valid() && configs.configs == GetOrCreate(old(configs.configs), guildId).1
    ensures (reply, PrivacyState(optOut.users, usage.rows), err) ==
      PrivacyOutcome(PrivacyState(old(optOut.users), old(usage.rows)), guildId, userId, collect)
  {
    var _ := configs.GetGuildConfig(guildId);
    err := None;
    if collect.None? {
      var opted := optOut.GetOptedOut(userId);
      return CurrentState(opted), None;
    }
    var c := collect.value;
    if c == "yes" {
      reply := SharingThanks;
      optOut.RemoveOptedOut(userId);
    } else if c == "no" {
      reply := OptedOutNotice;
      var added := optOut.AddOptedOut(userId);
      if added.Err? {
        err := Some(added.error);
      }
    } else if c == "delete" {
      reply := DeletedNotice;
      usage.RemoveUsageData(guildId, userId);
    } else {
      reply := NoReply;
    }
  }

  // ------------------------------------------------------------------------- /info

  /** The truthy user ids: `set([x.user_id for x in usage_data if x.user_id])`. */
  function UserIds(rows: seq<UsageRow>): set<int> {
    set x | x in rows && x.userId.Some? && x.userId.value != 0 :: x.userId.value
  }

  /** The "User Count" statistic. */
  function UniqueUsers(rows: seq<UsageRow>): nat {
    |UserIds(rows)|
  }

  lemma UserIdsCons(rows: seq<UsageRow>)
    requires rows != []
    ensures UserIds(rows) <= UserIds(rows[1..]) + (if rows[0].userId.Some? && rows[0].userId.value != 0 then {rows[0].userId.value} else {})
  {
    forall u | u in UserIds(rows)
      ensures u in UserIds(rows[1..]) + (if rows[0].userId.Some? && rows[0].userId.value != 0 then {rows[0].userId.value} else {})
    {
      var x :| x in rows && x.userId.Some? && x.userId.value != 0 && x.userId.value == u;
      if x != rows[0] {
        assert x in rows[1..];
      }
    }
  }

  /** There are never more users than rows. */
  lemma {:induction false} UniqueUsersBound(rows: seq<UsageRow>)
    ensures UniqueUsers(rows) <= |rows|
    decreases |rows|
  {
    if rows != [] {
      UserIdsCons(rows);
      UniqueUsersBound(rows[1..]);
      var extra: set<int> := if rows[0].userId.Some? && rows[0].userId.value != 0 then {rows[0].userId.value} else {};
      assert |UserIds(rows[1..]) + extra| <= |UserIds(rows[1..])| + |extra|;
      assert |UserIds(rows)| <= |UserIds(rows[1..]) + extra| by {
        SubsetCard(UserIds(rows), UserIds(rows[1..]) + extra);
      }
    }
  }

  lemma SubsetCard(a: set<int>, b: set<int>)
    requires a <= b
    ensures |a| <= |b|
  {
    assert b == a + (b - a);
  }

  /** Anonymised rows are never counted as users, and removing a user's data in a guild
      can only lower the count. */
  lemma UniqueUsersPrivacy(rows: seq<UsageRow>, guildId: int, userId: int, videoId: int, messageId: int, t: int)
    ensures UserIds(rows + [NewUsageRow(true, guildId, userId, videoId, messageId, t)]) == UserIds(rows)
    ensures UserIds(Scrubbed(rows, guildId, userId)) <= UserIds(rows)
    ensures UniqueUsers(Scrubbed(rows, guildId, userId)) <= UniqueUsers(rows)
  {
    var s := Scrubbed(rows, guildId, userId);
    ScrubbedSpec(rows, guildId, userId);
    forall u | u in UserIds(s) ensures u in UserIds(rows) {
      var x :| x in s && x.userId.Some? && x.userId.value != 0 && x.userId.value == u;
      var i :| 0 <= i < |s| && s[i] == x;
      assert rows[i].userId == x.userId;
    }
    SubsetCard(UserIds(s), UserIds(rows));
    var r := rows + [NewUsageRow(true, guildId, userId, videoId, messageId, t)];
    forall u | u in UserIds(r) ensures u in UserIds(rows) {
      var x :| x in r && x.userId.Some? && x.userId.value != 0 && x.userId.value == u;
      assert x in rows;
    }
  }

  /** One day, in seconds. */
  const Day: int := 86400

  /** "Converted Today": the rows stamped later than a day before `now`. */
  function ConvertedToday(rows: seq<UsageRow>, now: int): (n: nat)
    ensures n <= |rows|
  {
    if rows == [] then 0
    else (if rows[0].entryTime > now - Day then 1 else 0) + ConvertedToday(rows[1..], now)
  }

  lemma {:induction false} ConvertedTodayAppend(rows: seq<UsageRow>, x: UsageRow, now: int)
    ensures ConvertedToday(rows + [x], now) == ConvertedToday(rows, now) + (if x.entryTime > now - Day then 1 else 0)
    decreases |rows|
  {
    if rows != [] {
      assert (rows + [x])[1..] == rows[1..] + [x];
      ConvertedTodayAppend(rows[1..], x, now);
    } else {
      assert ([x])[1..] == [];
    }
  }

  /** Rows that share one stamp are counted all together or not at all. */
  lemma {:induction false} SharedStampAllOrNothing(rows: seq<UsageRow>, t: int, now: int)
    requires forall i :: 0 <= i < |rows| ==> rows[i].entryTime == t
    ensures ConvertedToday(rows, now) == if t > now - Day then |rows| else 0
    decreases |rows|
  {
    if rows != [] {
      SharedStampAllOrNothing(rows[1..], t, now);
    }
  }

  /** As written, every row carries the class-definition time, so once the bot has run
      for a day a row inserted a second ago is not counted as converted today. */
  lemma StaleStampHidesNewRow(rows: seq<UsageRow>, importTime: int, now: int,
                              guildId: int, userId: int, videoId: int, messageId: int, opted: bool)
    requires now >= importTime + Day
    ensures ConvertedToday(rows + [NewUsageRow(opted, guildId, userId, videoId, messageId, importTime)], now) ==
      ConvertedToday(rows, now)
  {
    ConvertedTodayAppend(rows, NewUsageRow(opted, guildId, userId, videoId, messageId, importTime), now);
  }

  /** With the insert time as stamp, a row counts as converted today for the whole day
      after its insert. */
  lemma FreshStampCountsNewRow(rows: seq<UsageRow>, inserted: int, now: int,
                               guildId: int, userId: int, videoId: int, messageId: int, opted: bool)
    requires inserted <= now < inserted + Day
    ensures ConvertedToday(rows + [NewUsageRow(opted, guildId, userId, videoId, messageId, inserted)], now) ==
      ConvertedToday(rows, now) + 1
  {
    ConvertedTodayAppend(rows, NewUsageRow(opted, guildId, userId, videoId, messageId, inserted), now);
  }

  /** How many rows name the video. */
  function Count(rows: seq<UsageRow>, videoId: int): nat {
    if rows == [] then 0 else (if rows[0].videoId == videoId then 1 else 0) + Count(rows[1..], videoId)
  }

  /** Row `k` holds a video no other video beats, and no earlier row holds a video that
      ties with it: `Counter(...).most_common(1)` keeps the first of equal counts. */
  predicate FirstMostCommon(rows: seq<UsageRow>, k: int) {
    && 0 <= k < |rows|
    && (forall j :: 0 <= j < |rows| ==> Count(rows, rows[j].videoId) <= Count(rows, rows[k].videoId))
    && (forall j :: 0 <= j < k ==> Count(rows, rows[j].videoId) < Count(rows, rows[k].videoId))
  }

  /** The scan behind `most_common(1)`: `b` is the first most common row among the
      first `i`. */
  function BestFrom(rows: seq<UsageRow>, i: nat, b: nat): (k: nat)
    requires b < i <= |rows|
    requires forall j :: 0 <= j < i ==> Count(rows, rows[j].videoId) <= Count(rows, rows[b].videoId)
    requires forall j :: 0 <= j < b ==> Count(rows, rows[j].videoId) < Count(rows, rows[b].videoId)
    ensures FirstMostCommon(rows, k)
    decreases |rows| - i
  {
    if i == |rows| then b
    else if Count(rows, rows[i].videoId) > Count(rows, rows[b].videoId) then BestFrom(rows, i + 1, i)
    else BestFrom(rows, i + 1, b)
  }

  /** `most_common(1)[0][0]` raises IndexError on no data. */
  datatype InfoError = IndexError

  /** The "Most Popular TikTok": the video id of the most frequent rows, the first one
      among equals. */
  function MostPopular(rows: seq<UsageRow>): (r: Result<int, InfoError>)
    ensures r.Err? <==> rows == []
    ensures r.Ok? ==> exists k :: FirstMostCommon(rows, k) && r.value == rows[k].videoId
  {
    if rows == [] then Err(IndexError) else Ok(rows[BestFrom(rows, 1, 0)].videoId)
  }

  lemma {:induction false} CountPositive(rows: seq<UsageRow>, i: int)
    requires 0 <= i < |rows|
    ensures Count(rows, rows[i].videoId) >= 1
    decreases |rows|
  {
    if i > 0 {
      CountPositive(rows[1..], i - 1);
    }
  }

  /** The most popular video occurs in the data, and no video occurs more often. */
  lemma MostPopularSpec(rows: seq<UsageRow>)
    requires rows != []
    ensures var v := MostPopular(rows).value;
      && Count(rows, v) >= 1
      && forall x :: x in rows ==> Count(rows, x.videoId) <= Count(rows, v)
  {
    var k := BestFrom(rows, 1, 0);
    CountPositive(rows, k);
    forall x | x in rows ensures Count(rows, x.videoId) <= Count(rows, rows[k].videoId) {
      var j :| 0 <= j < |rows| && rows[j] == x;
    }
  }

  /** `s[:-4]`: all but the last four characters. */
  function DropLast4(s: string): string {
    if |s| <= 4 then "" else s[..|s| - 4]
  }

  /** The commit link: the stripped `remote.origin.url` without its last four characters
      (the `.git`), then `/tree/` and the stripped short commit hash. */
  function RepoUrl(remote: string, commit: string): string {
    DropLast4(Strip(remote)) + "/tree/" + Strip(commit)
  }

  /** For a remote `<base>.git` and a commit, each printed on a line of its own, the link
      is the repository page of that commit. */
  lemma RepoUrlOfGitOutput(base: string, commit: string)
    requires IsStripped(base + ".git") && IsStripped(commit)
    ensures RepoUrl(base + ".git\n", commit + "\n") == base + "/tree/" + commit
  {
    assert base + ".git\n" == (base + ".git") + ['\n'];
    StripTrailingSpace(base + ".git", '\n');
    StripTrailingSpace(commit, '\n');
    assert (base + ".git")[..|base + ".git"| - 4] == base;
  }
}
