# tiktoker, modelled in Dafny

tiktoker is a Discord bot. It finds TikTok links in messages and commands. It fetches
the video's metadata from TikTok's API and replies with a short URL on its own domain
(`https://m.tiktoker.win/<slug>`), an info button, an audio button and a delete button.
It keeps four MongoDB collections:

- per-guild configs;
- the short-URL table;
- usage rows used for statistics;
- the users who opted out of usage collection.

This project models the bot's core as Dafny and proves what it promises:

- `links.dfy` (module `Links`): the link recogniser `check_for_link`. Its four regular
  expressions are written out as leftmost, greedy matchers with their bounded
  repetitions. It also covers the fixed precedence of the four patterns, the `https://`
  prefixing, `LinkData.from_list`, and the `Location` step of `get_video_id`.
- `payload.dfy` (module `Payload`): the upstream JSON as a small datatype, and each
  `_process_dict` as a function from the response dict to the record it builds.
  `clean_desc` is its loop, proved against a specification function, plus the
  hashtag list, the `.html` cut of `share_url` and the acceptance test of `get_tiktok`.
- `shortener.dfy` (module `Shortener`): the URL-safe base64 slug of six random bytes and
  its decoding. Also the short-URL table with its two unique indexes, and
  `create_short_url` as a class method with the slug-regeneration loop, an insert that
  can fail with a duplicate key, and at most one competing insert.
- `tables.dfy` (module `Tables`): get-or-create of guild configs with their defaults,
  the opt-out set, and the usage rows. Inserts are anonymised for opted-out users, and
  matching rows are nulled in place.
- `tiktok_scale.dfy` (module `TikTokScale`): the button ids and their dispatch, the
  embed title, the tag field and its 1024-character cut, the 50 MB warning, and the link
  branching and delivery choice of the automatic embed and the two convert commands.
- `general_scale.dfy` (module `GeneralScale`): the partial update of `/config`, the
  choices of `/privacy usage data`, and the `/info` statistics. Those are unique users,
  rows converted today, the most popular video and the commit link.
- `loader.dfy` (module `Loader`): `get_scales`, the module names of the extension files.
- `text.dfy` and `wrappers.dfy` (modules `Text` and `Wrappers`): the Python string
  operations the code relies on (`lower`, `replace`, `strip`, `re.sub(r"\s+", " ", ·)`,
  `split`, `int`, `str`), and `Option`/`Result`.

Some consequences of the code that the model keeps:

- `clean_desc` removes each hashtag once, lower-cases the text and collapses its
  whitespace: `Look at my cat #cats #funny` with the tags `cats` and `funny` gives
  `look at my cat`.
- A statistics payload without `digg_count` and without `like_count` fails to build,
  because the record has no default for the counter.
- `create_short_url` returns the URL it built even when the save was rejected (see
  Findings).

## Model

| member | source | states |
|---|---|---|
| Links.FromList | tiktoker/models.py:24-37 | a `ValueError` ("Invalid link") exactly unless the list has 3 or 4 items; otherwise the fields are the items in order, and `douyin` is the fourth item, false when there are three |
| Links.Greedy | tiktoker/utils/__init__.py:171-185 | a bounded repetition `{lo,hi}` takes as many class characters as it can up to `hi`, fails only when fewer than `lo` are there |
| Links.Search | tiktoker/utils/__init__.py:171-185 | `re.search`: the match found is the pattern's own match at that position, and the pattern matches at no earlier position; with no match, it matches at no position at all |
| Links.SearchStopsAtMatch | tiktoker/utils/__init__.py:171-185 | the search from a position where the pattern matches returns that match |
| Links.SearchSkipsNoMatch | tiktoker/utils/__init__.py:171-185 | the search from a position where the pattern does not match is the search from the next position |
| Links.SearchFindsOccurrence | tiktoker/utils/__init__.py:171-185 | the search succeeds exactly when the pattern matches at some position |
| Links.CheckForLink | tiktoker/utils/__init__.py:160-237 | a found link is never a douyin link and its id has its pattern's shape: 15-30 digits (long, medium), 5-30 digits (for-you-page), 5-15 word characters (short) |
| Links.CheckForLinkPrecedence | tiktoker/utils/__init__.py:189-237 | long wins, then short, then medium, then for-you-page, wherever each occurs; none exactly when no pattern occurs |
| Links.CheckForLinkIsDescribe | tiktoker/utils/__init__.py:189-236 | the link is built from the leftmost match of its own kind's pattern |
| Links.DescribeShape | tiktoker/utils/__init__.py:190-236 | the URL is the match itself when the `http` group took part and `https://` + match otherwise; the id is the id group, which ends the URL |
| Links.CheckForLinkUrl | tiktoker/utils/__init__.py:190-236 | the same for the link `check_for_link` returns |
| Links.MatchAtScheme | tiktoker/utils/__init__.py:172-184 | where the `http` group takes part it starts `https://`, or `http:` not followed by `/` |
| Links.BodyNotAtHttp | tiktoker/utils/__init__.py:172-184 | no pattern body can start at the letters `http` |
| Links.PlainHttpNeverMatches | tiktoker/utils/__init__.py:172-184 | no pattern matches starting at an `http://` |
| Links.NothingInsideHttpScheme | tiktoker/utils/__init__.py:172-184 | no pattern matches inside a leading `http://` |
| Links.HttpSchemeIsUpgraded | tiktoker/utils/__init__.py:172-196 | in `http://<link>` the match starts at the host without the group, so the URL gets `https://` in front |
| Links.DescribedUrlIsQualified | tiktoker/utils/__init__.py:190-236 | every URL built from a match starts `https://` or `http:` not followed by `/`, never `http://` |
| Links.CheckForLinkUrlIsQualified | tiktoker/utils/__init__.py:189-237 | the same for the link `check_for_link` returns |
| Links.GetVideoId | tiktoker/utils/__init__.py:286-288 | an id exactly when there is a `Location` and it holds a link, and it is that link's id |
| Links.GetVideoIdOfLongLocation | tiktoker/utils/__init__.py:286-288 | a `Location` holding a long link yields its 15-30 digit id |
| Payload.VideoFromDict | tiktoker/models.py:87-96 | with a `play_addr`: the download URL is its third `url_list` entry, the URI and size are copied, and the cover is the first cover entry; a missing field fails construction |
| Payload.KeepTruthy | tiktoker/models.py:111-118 | re-storing a truthy counter under its own name leaves the dict as it was |
| Payload.StatisticsFromDict | tiktoker/models.py:108-119 | likes come from a truthy `digg_count`, otherwise from an existing `like_count`; with neither, construction fails; the other counters are copied |
| Payload.FirstUrlInto | tiktoker/models.py:137-144 | a truthy `url_list` holder puts its first entry under the target key and changes nothing else; a falsy one changes nothing |
| Payload.ProcessMusic | tiktoker/models.py:136-151 | `website_url` is `https://www.tiktok.com/music/id-` + the id text and `owner_url` is `https://www.tiktok.com/@` + the handle; the id is kept; first-entry URLs |
| Payload.MusicFromDict | tiktoker/models.py:122-151 | the record carries those URLs and `int(id)` |
| Payload.ProcessAuthor | tiktoker/models.py:162-174 | a non-empty `unique_id` gives `url` = `https://www.tiktok.com/@` + it; otherwise `url` is whatever was there; nickname and handle are kept |
| Payload.AuthorFromDict | tiktoker/models.py:155-174 | the record carries that URL; without a handle and without a `url` construction fails |
| Payload.TagNames | tiktoker/models.py:189-193 | the names of the type-1 entries, in order: never more than the entries, empty exactly when no entry is a hashtag |
| Payload.TagNamesAppend | tiktoker/models.py:189-193 | one more entry appends its name exactly when it is a hashtag |
| Payload.CleanLoopFailed | tiktoker/models.py:197-202 | an AttributeError ends the loop: the later entries change nothing |
| Payload.CleanLoopWellFormed | tiktoker/models.py:197-202 | a loop that got through every entry saw only dicts whose type-1 entries have a string name; it can only fail with an AttributeError |
| Payload.CleanLoopValue | tiktoker/models.py:197-202 | on well-formed entries the loop holds the description after one hashtag step per type-1 entry, in order, and the description unchanged when there are none |
| Payload.CleanLoopNeedsString | tiktoker/models.py:197-202 | a loop that succeeds had well-formed entries, and a string description unless no entry is a hashtag |
| Payload.CleanLoopThenStrip | tiktoker/models.py:197-203 | `clean_desc` is the loop followed by `strip`, which fails unless the loop left a string |
| Payload.StripTagsSnoc | tiktoker/models.py:197-202 | the hashtag steps for one more name are one more step |
| Payload.CleanDesc | tiktoker/models.py:197-203 | the loop returns the specification result: per type-1 entry, lower, drop the first `#name`, collapse whitespace; strip at the end |
| Payload.CleanedDescShape | tiktoker/models.py:197-203 | the result is stripped; after at least one hashtag it is lower-case with no run of whitespace; with none it is only the stripped text |
| Payload.StripTagShape | tiktoker/models.py:201-202 | one hashtag step leaves lower-case text without whitespace runs |
| Payload.CleanedDescOfTaggedText | tiktoker/models.py:197-203 | a single-spaced text followed by its hashtags cleans to the lower-cased text (the text itself when there are none) |
| Payload.CleanedDescExample | tiktoker/models.py:197-203 | `Look at my cat #cats #funny` with hashtags `cats` and `funny` cleans to `look at my cat` |
| Payload.DescriptionFromDict | tiktoker/models.py:185-194 | `raw` is a truthy `desc`, `cleaned` the cleaned text, `tags` the hashtag names; a non-iterable `text_extra` fails |
| Payload.CanonicalShareUrl | tiktoker/models.py:229-232 | the share URL cut at its first `.html`: a prefix with no `.html` in it, followed in the URL by `.html`; a URL without `.html` is kept whole; only a text value is accepted |
| Text.CutAtShape | tiktoker/models.py:230-232 | `split(pat)[0]` is a prefix without `pat`, followed by `pat` when the text holds it and the whole text otherwise; cutting twice is cutting once |
| Payload.CanonicalShareUrlIdempotent | tiktoker/models.py:229-232 | cutting again changes nothing |
| Payload.CanonicalShareUrlExample | tiktoker/models.py:229-232 | `@a/video/1.html?lang=en` becomes `@a/video/1` |
| Payload.NestedSlot | tiktoker/models.py:223-238 | a truthy nested dict is replaced by the record built from it; a falsy one is left alone |
| Payload.IdSlot | tiktoker/models.py:221-222 | a truthy `aweme_id` becomes `int(aweme_id)`; otherwise `id` is left alone |
| Payload.ShareSlot | tiktoker/models.py:229-232 | a truthy share URL is cut at `.html`; otherwise it is left alone |
| Payload.ProcessTikTok | tiktoker/models.py:218-240 | every slot is filled from its own field as the rules above say; the description is built from the whole dict |
| Payload.Construct | tiktoker/models.py:206-215 | the record exists exactly when the fields without defaults are present, and carries them |
| Payload.TikTokDataFromDict | tiktoker/models.py:206-240 | the record's id, share URL, description, video, statistics, music, author and creation time come from their fields by those rules |
| Payload.GetTiktok | tiktoker/utils/__init__.py:17-20 | data only when `aweme_detail` is truthy and `status_code` is 0, and then it is the record built from `aweme_detail`; otherwise an error |
| Shortener.SextetChar | tiktoker/utils/__init__.py:255 | each 6-bit value maps to a URL-safe base64 character |
| Shortener.SextetRoundTrip | tiktoker/utils/__init__.py:255 | the character decodes back to its value |
| Shortener.Slug | tiktoker/utils/__init__.py:255 | the slug of 6 bytes is 8 URL-safe base64 characters |
| Shortener.GroupRoundTrip | tiktoker/utils/__init__.py:255 | 3 bytes encode to 4 characters that decode back to them |
| Shortener.SlugRoundTrip | tiktoker/utils/__init__.py:255 | decoding a slug gives back the 6 random bytes |
| Shortener.SlugInjective | tiktoker/utils/__init__.py:255-258 | different random bytes never give the same slug |
| Shortener.SaveKeepsValid | tiktoker/db/models/shortener.py:6-7 | an insert rejected by either unique index changes nothing; an accepted one adds exactly its entry; the table keeps one entry per URI and per slug |
| Shortener.FirstFree | tiktoker/utils/__init__.py:255-258 | the regeneration loop stops at the first draw whose slug is not taken; every earlier draw was taken |
| Shortener.ShortUrlInjective | tiktoker/utils/__init__.py:263 | different slugs give different short URLs |
| Shortener.CreateOutcome | tiktoker/utils/__init__.py:240-271 | specified by `CreateOutcomeSpec`, `SpamRaceReturnsDeadUrl` and `SlugRaceReturnsForeignUrl`: the URL `create_short_url` returns and the table it leaves |
| Shortener.CreateOutcomeSpec | tiktoker/utils/__init__.py:240-271 | an existing URI returns its stored URL and writes nothing; a new one gets `https://m.tiktoker.win/` + the first free slug; without a competing insert exactly that entry is added; the table stays valid |
| Shortener.SpamRaceReturnsDeadUrl | tiktoker/utils/__init__.py:265-271 | when a competing insert of the same URI wins, the returned URL is stored nowhere |
| Shortener.SlugRaceReturnsForeignUrl | tiktoker/utils/__init__.py:265-271 | when another URI takes the slug first, the URI stays unsaved and the returned URL leads to the other video |
| Shortener.RereadingReturnsStoredUrl | tiktoker/utils/__init__.py:265-271 | the re-reading variant returns only a URL stored for the URI: always with no or a same-URI rival, and the existing one for a known URI |
| Shortener.ShortenerStore.FindByUri | tiktoker/utils/__init__.py:251 | finds the entry of the URI exactly when there is one |
| Shortener.ShortenerStore.SlugExists | tiktoker/utils/__init__.py:256 | true exactly when some entry holds the slug |
| Shortener.ShortenerStore.Save | tiktoker/utils/__init__.py:265-270 | the insert against both unique indexes |
| Shortener.ShortenerStore.DrawFreeSlug | tiktoker/utils/__init__.py:255-258 | the loop returns the first draw whose slug is free |
| Shortener.ShortenerStore.CreateShortUrl | tiktoker/utils/__init__.py:240-271 | the URL and new table are those of `CreateOutcome`, so the properties above hold; a new URI's URL is built from one of the draws |
| Shortener.ShortenerStore.CreateShortUrlRereading | tiktoker/utils/__init__.py:265-271 | the corrected method: the result is the stored URL, or none when the URI is unsaved |
| Tables.GetOrCreate | tiktoker/utils/__init__.py:57-72 | specified by `GetOrCreateSpec`: the stored config, or the defaults stored for a new guild |
| Tables.AddOptOut | tiktoker/utils/__init__.py:140-141 | specified by `OptOutRoundTrip`: adds the user, failing with a duplicate key when present |
| Tables.Scrubbed | tiktoker/utils/__init__.py:148-150 | specified by `ScrubbedSpec`, `ScrubbedIdempotent` and `ScrubbedForgetsUser`: the rows with the user's rows in a guild nulled |
| Tables.GetOrCreateSpec | tiktoker/utils/__init__.py:57-72 | returns the stored config, or creates and stores the defaults (embed on, delete off, suppress on, `en`); other guilds untouched; a second call changes nothing |
| Tables.ConfigTable.GetGuildConfig | tiktoker/utils/__init__.py:57-72 | the method does what `GetOrCreate` says |
| Tables.ConfigTable.Save | tiktoker/db/models/config.py:5-12 | saving stores the config under its guild, keyed by the unique guild index |
| Tables.OptOutRoundTrip | tiktoker/utils/__init__.py:140-157 | adding fails exactly for a user already opted out; add then remove restores the set; remove always opts the user in; nobody else changes |
| Tables.OptOutTable.GetOptedOut | tiktoker/utils/__init__.py:153-157 | true exactly when the user has an opt-out document |
| Tables.OptOutTable.AddOptedOut | tiktoker/utils/__init__.py:140-141 | the insert of `AddOptOut`, failing with a duplicate key on the unique user index |
| Tables.OptOutTable.RemoveOptedOut | tiktoker/utils/__init__.py:144-145 | the user's document is gone, if there was one |
| Tables.NewUsageRow | tiktoker/utils/__init__.py:95-101 | guild, video and time always kept; user and message ids dropped exactly for an opted-out user and kept otherwise |
| Tables.OfGuild | tiktoker/utils/__init__.py:104-114 | the rows of one guild, nothing else |
| Tables.OfUser | tiktoker/utils/__init__.py:117-127 | the rows naming one user, nothing else |
| Tables.ScrubbedSpec | tiktoker/utils/__init__.py:148-150 | no row deleted or moved; matching rows lose user and message ids and keep guild, video and time; other rows unchanged |
| Tables.ScrubbedIdempotent | tiktoker/utils/__init__.py:148-150 | removing twice is removing once |
| Tables.ScrubbedForgetsUser | tiktoker/utils/__init__.py:148-150 | afterwards the user's rows are exactly those from other guilds; other guilds' rows are untouched |
| Tables.UsageTable.InsertUsageData | tiktoker/utils/__init__.py:82-101 | appends the anonymised-if-opted-out row, stamped with the time the document class was defined |
| Tables.UsageTable.InsertUsageDataAt | tiktoker/db/models/usage_data.py:14 | the corrected insert: the row is stamped with the insert time |
| Tables.UsageTable.RemoveUsageData | tiktoker/utils/__init__.py:148-150 | the rows become `Scrubbed` of the old rows |
| TikTokScale.ParseIntOfDigits | tiktoker/scales/tiktok.py:220 | `int` of a digit string is its value |
| TikTokScale.VideoButtonRoundTrip | tiktoker/scales/tiktok.py:218-220 | a `v_id` button of a digit id opens the info of that id |
| TikTokScale.AudioButtonDispatch | tiktoker/scales/tiktok.py:289-301 | an `m_id` button fetches the audio of the number after the prefix, and reports the failure when there is no number; the same `try` also reports a failed fetch, which is not modelled (in the `v_id` branch neither failure is caught) |
| TikTokScale.AudioButtonRoundTrip | tiktoker/scales/tiktok.py:283-293 | an `m_id` button of any integer id opens the audio of that id |
| TikTokScale.DeleteButtonNeedsPermission | tiktoker/scales/tiktok.py:204-217 | a delete button deletes exactly for a clicker who may manage messages; the author comparison never holds |
| TikTokScale.UnknownButtonIgnored | tiktoker/scales/tiktok.py:204-289 | an id with none of the three prefixes does nothing |
| TikTokScale.WarningExactlyWhenTooBig | tiktoker/scales/tiktok.py:112-116 | the message carries the warning line exactly when the size is strictly over 50000000 (the same test in all three handlers) |
| TikTokScale.EmbedTitle | tiktoker/scales/tiktok.py:225-230 | no title for an empty description, otherwise its first min(256, length) characters |
| TikTokScale.LastFrom | tiktoker/scales/tiktok.py:271 | the last occurrence at or before a bound, or none |
| TikTokScale.BeforeLast | tiktoker/scales/tiktok.py:271 | `rsplit(sep, 1)[0]` is the text up to the last occurrence of the separator, or the whole text when there is none |
| TikTokScale.CutTagsAsWrittenOverflows | tiktoker/scales/tiktok.py:270-271 | as written, a long tag text whose last `) ` in the first 1024 characters is at 1022 is cut to 1027 characters |
| TikTokScale.TagLinkShape | tiktoker/scales/tiktok.py:266 | a rendered tag has 29 + 2·len characters and ends in `)` |
| TikTokScale.JoinRepeatLength | tiktoker/scales/tiktok.py:264-269 | n five-letter tags join to 40n - 1 characters |
| TikTokScale.JoinSnoc | tiktoker/scales/tiktok.py:264-269 | joining one more tag adds a space and that tag |
| TikTokScale.TagFieldOverflowExample | tiktoker/scales/tiktok.py:263-271 | 24 five-letter tags, a 17-letter tag and one more give a 1027-character field as written |
| TikTokScale.CutTagsFits | tiktoker/scales/tiktok.py:270-271 | the corrected cut is at most 1024 characters, keeps text that fits, and otherwise ends `) ...` after a prefix cut at a tag boundary |
| TikTokScale.TagFieldSpec | tiktoker/scales/tiktok.py:263-277 | the corrected tag field: present exactly when there are tags; the whole join when it fits; never over 1024 |
| TikTokScale.TagFieldAsWrittenSpec | tiktoker/scales/tiktok.py:263-277 | the tag field as written: present exactly when there are tags; the whole join when it fits (1024 or fewer); otherwise the join cut back to the last `) ` in its first 1024 characters, then `) ...`, so at most 1029 |
| TikTokScale.TagFieldAsWritten | tiktoker/scales/tiktok.py:263-277 | specified by `TagFieldAsWrittenSpec`: the field as the bot builds it |
| TikTokScale.CutTagsAsWritten | tiktoker/scales/tiktok.py:270-271 | specified by `CutTagsAsWrittenOverflows` and `TagFieldAsWrittenSpec`: text of 1024 or fewer characters is kept, longer text is cut back to the last `) ` and given `) ...` |
| TikTokScale.InfoTitleAndTags | tiktoker/scales/tiktok.py:227-277 | the info embed's title is `EmbedTitle` of the cleaned description, and it has a tag field exactly when there are tags, of at most 1029 characters as written |
| TikTokScale.OnButtonClick | tiktoker/scales/tiktok.py:204-301 | specified by `VideoButtonRoundTrip`, `AudioButtonRoundTrip`, `AudioButtonDispatch`, `DeleteButtonNeedsPermission` and `UnknownButtonIgnored`: prefixes are tried in the order `delete`, `v_id`, `m_id` |
| TikTokScale.NextStep | tiktoker/scales/tiktok.py:25-36 | specified by `ResolveLinkSpec`: no link means nothing to fetch; a short link is fetched by where it leads, any other by its own id |
| TikTokScale.DeliveryFor | tiktoker/scales/tiktok.py:167-194 | specified by `DeliveryPrecedence`: deleting the original wins over suppressing its embed, then a plain reply |
| TikTokScale.ResolveLinkSpec | tiktoker/scales/tiktok.py:25-36 | no link (douyin links included) stops the handler; a short link goes through the `Location` step; any other uses its own id |
| TikTokScale.DeliveryPrecedence | tiktoker/scales/tiktok.py:167-194 | deleting the original wins over suppressing its embed, then a plain reply; the default config suppresses |
| TikTokScale.Deliver | tiktoker/scales/tiktok.py:148-198 | the URL and table are those of `create_short_url` as written (`CreateOutcome`), so with no competing insert the URL is the one stored for the video; the warning is exactly the size rule; when the id reads as an integer one usage row is appended, anonymised as the opt-out says and stamped with the shared default time, and otherwise none |
| TikTokScale.OnMessageCreate | tiktoker/scales/tiktok.py:121-198 | nothing happens for the bot's own messages, no link, or auto-embed off (besides creating a missing config); otherwise the bot posts exactly when there is a video id and the fetch succeeded, and reports a failure exactly otherwise, storing nothing; a post has the delivery rule, the size rule, the short URL and table of `create_short_url` and the usage row of `insert_usage_data` |
| TikTokScale.ConvertCommand | tiktoker/scales/tiktok.py:21-119 | the config is read or created first; no link gives the refusal and stores nothing; otherwise a reply exactly when there is a video id and the fetch succeeded, and the error exactly otherwise, storing nothing; a reply carries the short URL and table of `create_short_url`, the size rule and the usage row of `insert_usage_data`, and the menu command suppresses the original embed exactly when the config asks |
| GeneralScale.Merge | tiktoker/scales/general.py:268-275 | specified by `MergeSpec`: the options given replace their fields |
| GeneralScale.SetupConfigOutcome | tiktoker/scales/general.py:216-295 | specified by `SetupConfigSpec`: the reply and new config table of `/config` |
| GeneralScale.PrivacyOutcome | tiktoker/scales/general.py:151-187 | specified by `PrivacySpec`, `PrivacyDeleteSpec` and `OptOutThenIn`: the reply, stores and error of `/privacy usage data` |
| GeneralScale.UniqueUsers | tiktoker/scales/general.py:307 | specified by `UniqueUsersBound` and `UniqueUsersPrivacy`: the number of distinct truthy user ids |
| GeneralScale.Count | tiktoker/scales/general.py:316-318 | specified by `MostPopularSpec`: how often a video id occurs among the rows |
| GeneralScale.RepoUrl | tiktoker/scales/general.py:319-329 | specified by `RepoUrlOfGitOutput`: the commit link from the remote and the commit |
| GeneralScale.MergeSpec | tiktoker/scales/general.py:268-275 | each given option sets exactly its field, absent ones keep it, no options change nothing, merging twice is merging once |
| GeneralScale.SetupConfigSpec | tiktoker/scales/general.py:216-295 | without permission nothing changes; with no options the current config is only shown; otherwise the stored and shown config is the merge; other guilds untouched |
| GeneralScale.SetupConfig | tiktoker/scales/general.py:216-295 | the method's reply and table are those of `SetupConfigOutcome` |
| GeneralScale.PrivacySpec | tiktoker/scales/general.py:151-187 | no choice only reports; `yes` opts in, `no` opts out and fails when repeated; only `delete` touches rows; only this user's opt-out changes |
| GeneralScale.PrivacyDeleteSpec | tiktoker/scales/general.py:180-187 | `delete` keeps every row, leaves none in this guild naming the user, and leaves other guilds alone |
| GeneralScale.OptOutThenIn | tiktoker/scales/general.py:164-178 | `no` then `yes` restores the opt-out set of a user who was opted in |
| GeneralScale.PrivacyOptions | tiktoker/scales/general.py:147-187 | the method's reply, error and stores are those of `PrivacyOutcome`, after get-or-create of the config |
| GeneralScale.UniqueUsersBound | tiktoker/scales/general.py:307 | never more distinct users than rows |
| GeneralScale.UniqueUsersPrivacy | tiktoker/scales/general.py:307 | an anonymised row adds no user; removing usage data never adds one |
| GeneralScale.ConvertedToday | tiktoker/scales/general.py:308-314 | the count of rows stamped later than a day before now is at most the number of rows |
| GeneralScale.ConvertedTodayAppend | tiktoker/scales/general.py:308-314 | one more row counts exactly when its stamp is within the day |
| GeneralScale.SharedStampAllOrNothing | tiktoker/scales/general.py:308-314 | rows sharing one stamp are counted all or none |
| GeneralScale.StaleStampHidesNewRow | tiktoker/db/models/usage_data.py:14 | a day after start-up, a row just inserted with the shared default stamp does not count |
| GeneralScale.FreshStampCountsNewRow | tiktoker/scales/general.py:308-314 | with the insert time as stamp, a new row counts for the whole next day |
| GeneralScale.BestFrom | tiktoker/scales/general.py:316-318 | the scan ends at the first row holding a video no other video beats |
| GeneralScale.MostPopular | tiktoker/scales/general.py:316-318 | an error exactly for no data; otherwise the first most frequent video id |
| GeneralScale.MostPopularSpec | tiktoker/scales/general.py:316-318 | the most popular video occurs and no video occurs more often |
| GeneralScale.RepoUrlOfGitOutput | tiktoker/scales/general.py:319-329 | for git output `<base>.git` and a commit, each ending in a newline, the link is `<base>/tree/<commit>` |
| Loader.GetScales | tiktoker/utils/__init__.py:50-54 | one module name per file, in listing order; each is the package followed by the file name with every `.py` removed and each space made `_`, character by character |
| Loader.ScaleModuleSpec | tiktoker/utils/__init__.py:52-54 | a name is `tiktoker.scales.` followed by the file name without `.py`, each space made `_`, so no space is left; `<stem>.py` gives `tiktoker.scales.<stem>` |
| Loader.ReplaceCharSpec | tiktoker/utils/__init__.py:53 | replacing spaces by `_` keeps the length and changes exactly the spaces |
| Loader.DropPyExtension | tiktoker/utils/__init__.py:53 | removing `.py` from `<stem>.py` leaves the stem when it has no dot |
| Loader.GetScalesOfPythonFiles | tiktoker/utils/__init__.py:50-54 | a directory of `<stem>.py` files loads as `tiktoker.scales.<stem>` each |
| Text.LowerConcat | tiktoker/models.py:201 | `lower` of a concatenation is the concatenation of the lowered parts |
| Text.LowerCapitalised | tiktoker/models.py:201 | lowering a word whose tail is already lower case changes only its first letter |
| Text.CollapseSpacesKeepsLowered | tiktoker/models.py:202 | collapsing whitespace keeps a lower-cased text lower-cased |
| Text.ParseIntOfIntToDecimal | tiktoker/scales/tiktok.py:283-293 | `int(str(i)) == i` for every integer |
| Text.StripTrailingSpace | tiktoker/scales/general.py:320-328 | `strip` removes the newline after a stripped line of command output |

## Left out

- HTTP (aiohttp), Discord (dis_snek) and MongoDB I/O. The fetch of a video is an input
  to the handlers (`Fetched`, or none for a failure). So are the `Location` header, the
  clicker's permission, the sent message's id and the current time. Messages,
  embeds, buttons and their texts are not modelled, only the decisions behind them.
- TikTokScale.OnMessageCreate: when a short link's `Location` yields no id, the code
  still calls `get_tiktok(None)`, which requests `aweme_id=None`; the model takes that
  fetch to fail and reports the failure without consulting `fetched`, so "posts
  exactly when there is a video id and the fetch succeeded" rests on that assumption
  about TikTok's API.
- TikTokScale.OnMessageCreate: the handlers take the result of `check_for_link` and
  the `Location` lookup as inputs. `ResolveLinkSpec` ties them to the text, so the
  regular expressions are not unfolded inside the handler proofs.
- Translation (`gettext`, `translate.py`, `makepo.py`), startup, the Mongo client,
  `get_music_data`, the paginator and the latency and version fields of `/info`.
- The douyin scale: `check_for_link` never sets `douyin`, so that path cannot be taken.
- `edit_guild_config`: no handler calls it, and its effect depends on how the document
  library applies an update without an operator.
- `get_all_usage_data` is the row sequence itself.
- Regular expressions and strings are over Dafny characters. `\d` and `\w` are their
  ASCII classes and `lower` only maps `A`-`Z`; Unicode digits, letters and case folding
  are not modelled. `\s` and `strip` use Python's whitespace set (`str.isspace`).
- Payload.ProcessTikTok: every `_process_dict` mutates the dict in place and then
  builds the record. Here each is a function from the dict to the new dict or record,
  so sharing of the mutated dict between records is not modelled. `str()` of a JSON
  value is exact only for strings and integers. The `Timestamp` converter is not
  modelled: `created` keeps the raw value.
- Shortener.ShortenerStore.CreateShortUrl: the random bytes are the sequence of draws
  the loop consumes. The method requires that some draw is free, so the
  (improbable) endless regeneration is not modelled. Concurrency is at most one
  competing insert, applied between the slug check and the save.
- Links.FromList: `cls(*link)` checks no types, so a list of 3 or 4 items of any types
  builds a record. Only lists whose items fit the fields are modelled; the one caller
  passes a kind and two texts.
- Text.ParseInt: `int()` of text also accepts surrounding whitespace, `_` between
  digits and non-ASCII digits; the model accepts an optional sign and ASCII digits only.
  Video ids and button ids are digit strings, so the difference is not reached there.
- TikTokScale.Deliver: a video id that is not an integer makes `UsageData` raise after
  the post; the model records no row and reports the post as not recorded.
- TikTokScale.ConvertCommand: the handlers use `create_short_url` and
  `insert_usage_data` as written. The short URL is the stored one only when no
  competing insert lands inside `create_short_url` (see Findings), and every row gets
  the shared default stamp.
- TikTokScale.DeleteButtonNeedsPermission: the comparison of the integer author id
  with the text after `delete` is never true, and it is modelled that way; the author
  alone can therefore never delete.
- GeneralScale.SetupConfig: the missing-permission branch reads `config` before it is
  assigned and raises. It is modelled as `Unbound`, with nothing sent or stored.
- GeneralScale.ConvertedToday: times are whole seconds on one clock. That `entry_time`
  is UTC and `datetime.now()` is local time is not modelled.
- Payload.StatisticsFromDict: a missing counter fails construction, as the record has
  no defaults.

## Findings

The handlers keep the behaviour as written; each corrected member stands beside it
with the intended property proved.

| source | as written | input that shows it | evidently intended | confidence | as-written member | corrected member |
|---|---|---|---|---|---|---|
| tiktoker/utils/__init__.py:265-271 | after a `DuplicateKeyError` the freshly built, unsaved URL is returned | a competing insert for the same video (link spam) or of the same slug wins between the slug check and the save | return the URL that is actually stored ("return the existing url") | not executed | Shortener.SpamRaceReturnsDeadUrl | Shortener.ShortenerStore.CreateShortUrlRereading |
| tiktoker/db/models/usage_data.py:14 | `Field(default=datetime.utcnow())` evaluates the time once, when the class is defined, and every row gets that stamp | any row inserted a day or more after start-up is never counted as converted today | stamp each row with its insert time (`default_factory`) | not executed | GeneralScale.StaleStampHidesNewRow | Tables.UsageTable.InsertUsageDataAt |
| tiktoker/scales/tiktok.py:270-271 | the joined tags are cut to 1024 characters, back to the last `) `, and then `) ...` is appended, which can exceed the 1024-character field limit | 24 five-letter tags, one 17-letter tag and one more tag give 1027 characters | a field of at most 1024 characters | not executed | TikTokScale.TagFieldOverflowExample | TikTokScale.CutTagsFits |
