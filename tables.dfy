/**
 * The guild-config, usage and opt-out collections and the helpers in
 * `tiktoker/utils/__init__.py` that read and write them. Each collection is a class
 * whose field is the stored set of documents; the unique indexes of the document
 * schemas become the class invariants.
 */
module Tables {
  import opened Wrappers

  /** The error a unique index raises on a second insert. */
  datatype DbError = DuplicateKey

  // ------------------------------------------------------------------ guild configs

  /** A `Config` document. */
  datatype Config = Config(guildId: int, autoEmbed: bool, deleteOrigin: bool, suppressOriginEmbed: bool, language: string)

  /** `Config(guild_id=guild_id)`: the schema defaults. */
  function DefaultConfig(guildId: int): Config {
    Config(guildId, true, false, true, "en")
  }

  type ConfigMap = map<int, Config>

  /** `guild_id` is the unique key of every stored config. */
  predicate ValidConfigs(m: ConfigMap) {
    forall g :: g in m ==> m[g].guildId == g
  }

  /** `get_guild_config`: the stored config, or a new default one that is saved. */
  function GetOrCreate(m: ConfigMap, guildId: int): (Config, ConfigMap) {
    if guildId in m then (m[guildId], m) else (DefaultConfig(guildId), m[guildId := DefaultConfig(guildId)])
  }

  /** The config returned is the one stored for the guild afterwards; a guild seen for the
      first time gets the defaults (auto-embed on, keep the original message, suppress its
      embed, English); an existing config is returned unchanged and nothing is written;
      no other guild's config changes; and a second call neither writes nor returns
      anything different. */
  lemma GetOrCreateSpec(m: ConfigMap, guildId: int)
    requires ValidConfigs(m)
    ensures var (c, m') := GetOrCreate(m, guildId);
      && ValidConfigs(m') && guildId in m' && m'[guildId] == c && c.guildId == guildId
      && m'.Keys == m.Keys + {guildId}
      && (forall g :: g in m && g != guildId ==> m'[g] == m[g])
      && (guildId in m ==> c == m[guildId] && m' == m)
      && (guildId !in m ==> c.autoEmbed && !c.deleteOrigin && c.suppressOriginEmbed && c.language == "en")
      && GetOrCreate(m', guildId) == (c, m')
  {
  }

  class ConfigTable {
    var configs: ConfigMap

    ghost predicate Valid()
      reads this
    {
      ValidConfigs(configs)
    }

    constructor ()
      ensures configs == map[] && Valid()
    {
      configs := map[];
    }

    /** `get_guild_config(guild_id)`. */
    method GetGuildConfig(guildId: int) returns (c: Config)
      requires Valid()
      modifies this
      ensures Valid()
      ensures (c, configs) == GetOrCreate(old(configs), guildId)
    {
      GetOrCreateSpec(configs, guildId);
      if guildId in configs {
        c := configs[guildId];
      } else {
        c := DefaultConfig(guildId);
        configs := configs[guildId := c];
      }
    }

    /** `config.save()` of a config that was read from the table. */
    method Save(c: Config)
      requires Valid()
      modifies this
      ensures Valid()
      ensures configs == old(configs)[c.guildId := c]
    {
      configs := configs[c.guildId := c];
    }
  }

  // ----------------------------------------------------------------------- opt-outs

  /** `add_opted_out`: the unique `user_id` index rejects a second opt-out. */
  function AddOptOut(s: set<int>, userId: int): Result<set<int>, DbError> {
    if userId in s then Err(DuplicateKey) else Ok(s + {userId})
  }

  /** `remove_opted_out`: deletes the user's document if there is one. */
  function RemoveOptOut(s: set<int>, userId: int): set<int> {
    s - {userId}
  }

  /** Adding fails exactly when the user is already opted out; afterwards the user is
      opted out and nobody else changed state. Removing then restores the set, and
      removing always leaves the user opted in without touching anyone else. */
  lemma OptOutRoundTrip(s: set<int>, userId: int)
    ensures AddOptOut(s, userId).Err? <==> userId in s
    ensures AddOptOut(s, userId).Ok? ==>
      && userId in AddOptOut(s, userId).value
      && (forall v :: v != userId ==> (v in AddOptOut(s, userId).value <==> v in s))
      && RemoveOptOut(AddOptOut(s, userId).value, userId) == s
    ensures userId !in RemoveOptOut(s, userId)
    ensures forall v :: v != userId ==> (v in RemoveOptOut(s, userId) <==> v in s)
  {
  }

  class OptOutTable {
    var users: set<int>

    constructor ()
      ensures users == {}
    {
      users := {};
    }

    /** `get_opted_out(user_id)`. */
    method GetOptedOut(userId: int) returns (b: bool)
      ensures b <==> userId in users
    {
      b := userId in users;
    }

    /** `add_opted_out(user_id)`. */
    method AddOptedOut(userId: int) returns (r: Result<(), DbError>)
      modifies this
      ensures r.Err? <==> old(AddOptOut(users, userId)).Err?
      ensures r.Ok? ==> users == old(AddOptOut(users, userId)).value
      ensures r.Err? ==> users == old(users) && r.error == old(AddOptOut(users, userId)).error
    {
      if userId in users {
        r := Err(DuplicateKey);
      } else {
        users := users + {userId};
        r := Ok(());
      }
    }

    /** `remove_opted_out(user_id)`. */
    method RemoveOptedOut(userId: int)
      modifies this
      ensures users == RemoveOptOut(old(users), userId)
    {
      users := users - {userId};
    }
  }

  // -------------------------------------------------------------------- usage rows

  /** A `UsageData` document; `entryTime` is in seconds. */
  datatype UsageRow = UsageRow(guildId: int, userId: Option<int>, videoId: int, messageId: Option<int>, entryTime: int)

  /** The row `insert_usage_data` stores: an opted-out user's id and message id are
      replaced by `None`. */
  function NewUsageRow(optedOut: bool, guildId: int, userId: int, videoId: int, messageId: int, entryTime: int): (r: UsageRow)
    ensures r.guildId == guildId && r.videoId == videoId && r.entryTime == entryTime
    ensures r.userId.None? <==> optedOut
    ensures r.messageId.None? <==> optedOut
    ensures !optedOut ==> r.userId == Some(userId) && r.messageId == Some(messageId)
  {
    if optedOut then UsageRow(guildId, None, videoId, None, entryTime)
    else UsageRow(guildId, Some(userId), videoId, Some(messageId), entryTime)
  }

  /** The rows of one guild, in stored order: `get_guild_usage_data`. */
  function OfGuild(rows: seq<UsageRow>, guildId: int): (r: seq<UsageRow>)
    ensures |r| <= |rows|
    ensures forall x :: x in r <==> x in rows && x.guildId == guildId
  {
    if rows == [] then []
    else (if rows[0].guildId == guildId then [rows[0]] else []) + OfGuild(rows[1..], guildId)
  }

  /** The rows naming one user, in stored order: `get_user_usage_data`. */
  function OfUser(rows: seq<UsageRow>, userId: int): (r: seq<UsageRow>)
    ensures |r| <= |rows|
    ensures forall x :: x in r <==> x in rows && x.userId == Some(userId)
  {
    if rows == [] then []
    else (if rows[0].userId == Some(userId) then [rows[0]] else []) + OfUser(rows[1..], userId)
  }

  /** `remove_usage_data` on one row. */
  function ScrubRow(x: UsageRow, guildId: int, userId: int): UsageRow {
    if x.guildId == guildId && x.userId == Some(userId) then x.(userId := None, messageId := None) else x
  }

  /** `remove_usage_data(guild_id, user_id)` on the collection: the matching rows are
      updated in place, none is deleted. */
  function Scrubbed(rows: seq<UsageRow>, guildId: int, userId: int): seq<UsageRow> {
    seq(|rows|, i requires 0 <= i < |rows| => ScrubRow(rows[i], guildId, userId))
  }

  /** No row is removed or reordered; each keeps its guild, video and time; the matching
      rows lose user and message ids; every other row is unchanged. */
  lemma ScrubbedSpec(rows: seq<UsageRow>, guildId: int, userId: int)
    ensures |Scrubbed(rows, guildId, userId)| == |rows|
    ensures forall i :: 0 <= i < |rows| ==>
      var y := Scrubbed(rows, guildId, userId)[i];
      && y.guildId == rows[i].guildId && y.videoId == rows[i].videoId && y.entryTime == rows[i].entryTime
      && (rows[i].guildId == guildId && rows[i].userId == Some(userId) ==> y.userId.None? && y.messageId.None?)
      && (rows[i].guildId != guildId || rows[i].userId != Some(userId) ==> y == rows[i])
  {
  }

  /** Scrubbing twice is scrubbing once. */
  lemma ScrubbedIdempotent(rows: seq<UsageRow>, guildId: int, userId: int)
    ensures Scrubbed(Scrubbed(rows, guildId, userId), guildId, userId) == Scrubbed(rows, guildId, userId)
  {
  }

  lemma ScrubbedCons(rows: seq<UsageRow>, guildId: int, userId: int)
    requires rows != []
    ensures Scrubbed(rows, guildId, userId) == [ScrubRow(rows[0], guildId, userId)] + Scrubbed(rows[1..], guildId, userId)
  {
    assert Scrubbed(rows, guildId, userId)[1..] == Scrubbed(rows[1..], guildId, userId);
  }

  /** After `remove_usage_data`, the user's rows are exactly those from other guilds,
      and every other guild's rows are untouched. */
  lemma {:induction false} ScrubbedForgetsUser(rows: seq<UsageRow>, guildId: int, userId: int)
    ensures OfUser(Scrubbed(rows, guildId, userId), userId) == OfUser(OfOtherGuilds(rows, guildId), userId)
    ensures forall g :: g != guildId ==> OfGuild(Scrubbed(rows, guildId, userId), g) == OfGuild(rows, g)
    decreases |rows|
  {
    if rows != [] {
      ScrubbedCons(rows, guildId, userId);
      ScrubbedForgetsUser(rows[1..], guildId, userId);
      var s := Scrubbed(rows, guildId, userId);
      assert s[1..] == Scrubbed(rows[1..], guildId, userId);
      var o := OfOtherGuilds(rows, guildId);
      assert OfUser(s, userId) == (if s[0].userId == Some(userId) then [s[0]] else []) + OfUser(s[1..], userId);
      if rows[0].guildId != guildId {
        assert s[0] == rows[0];
        assert o[0] == rows[0] && o[1..] == OfOtherGuilds(rows[1..], guildId);
        assert OfUser(o, userId) == (if o[0].userId == Some(userId) then [o[0]] else []) + OfUser(o[1..], userId);
      } else {
        assert s[0].userId != Some(userId);
        assert o == OfOtherGuilds(rows[1..], guildId);
      }
    }
  }

  /** The rows of every guild but one. */
  function OfOtherGuilds(rows: seq<UsageRow>, guildId: int): (r: seq<UsageRow>)
    ensures |r| <= |rows|
    ensures forall x :: x in r <==> x in rows && x.guildId != guildId
  {
    if rows == [] then []
    else (if rows[0].guildId != guildId then [rows[0]] else []) + OfOtherGuilds(rows[1..], guildId)
  }

  class UsageTable {
    var rows: seq<UsageRow>
    /** The `entry_time` default: `datetime.utcnow()` evaluated once, when the document
        class is defined, and then shared by every row saved without a time. */
    const defaultEntryTime: int

    constructor (importTime: int)
      ensures rows == [] && defaultEntryTime == importTime
    {
      rows := [];
      defaultEntryTime := importTime;
    }

    /** `insert_usage_data(guild_id, user_id, video_id, message_id)` as written: the row
        is stamped with the class-definition time. */
    method InsertUsageData(optOut: OptOutTable, guildId: int, userId: int, videoId: int, messageId: int)
      modifies this
      ensures rows == old(rows) + [NewUsageRow(userId in optOut.users, guildId, userId, videoId, messageId, defaultEntryTime)]
    {
      var opted := optOut.GetOptedOut(userId);
      var user: Option<int> := Some(userId);
      var message: Option<int> := Some(messageId);
      if opted {
        user := None;
        message := None;
      }
      rows := rows + [UsageRow(guildId, user, videoId, message, defaultEntryTime)];
    }

    /** The corrected insert: the row is stamped with the time of the insert. */
    method InsertUsageDataAt(optOut: OptOutTable, guildId: int, userId: int, videoId: int, messageId: int, now: int)
      modifies this
      ensures rows == old(rows) + [NewUsageRow(userId in optOut.users, guildId, userId, videoId, messageId, now)]
    {
      var opted := optOut.GetOptedOut(userId);
      rows := rows + [NewUsageRow(opted, guildId, userId, videoId, messageId, now)];
    }

    /** `remove_usage_data(guild_id, user_id)`. */
    method RemoveUsageData(guildId: int, userId: int)
      modifies this
      ensures rows == Scrubbed(old(rows), guildId, userId)
    {
      rows := Scrubbed(rows, guildId, userId);
    }

    /** `get_guild_usage_data(guild_id)`. */
    function GuildUsageData(guildId: int): seq<UsageRow>
      reads this
    {
      OfGuild(rows, guildId)
    }

    /** `get_user_usage_data(user_id)`. */
    function UserUsageData(userId: int): seq<UsageRow>
      reads this
    {
      OfUser(rows, userId)
    }
  }
}
