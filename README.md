# TON news channel bot — a verified model of its core

The bot runs a Telegram channel about TON. It reads crypto news channels through a
user-account client and keeps the messages that pass a keyword classifier. For each
fresh item it has a post written, attaches an image from the NanoBanana generation
API when one arrives, appends a short reaction line, and publishes the result. Twice
a day, at 11:00 and 22:00 Moscow time, it also publishes a TON price post. A
duplicate guard keeps it from posting the same text or the same news twice. The guard
survives restarts through `bot_state.json` and `processed_ids.txt`.

This project models that core in Dafny:

- `relevance.dfy` holds the classifier `is_relevant_news`. Its keyword loops are
  methods proved against a decision-list predicate.
- `ingestion.dfy` covers `NewsParser`: the processed-id file, the message scan of
  `get_new_relevant_news`, and the reload of the id file.
- `channel_bot.dfy` covers `TelegramChannelBot`. It is a class whose fields the
  methods update: duplicate guard, `publish_post` and its two fallback handlers,
  the manual /p post, the quota gate, the news cycle, the price posts, and the
  start and passes of `run_loop`. Each method is proved to perform a transition
  written as a pure function on `Memory` (the value of the fields). The guard's
  properties are lemmas about those functions.
- `schedule.dfy` has the clock arithmetic: midnights, the Moscow date and hour, the
  cycle gate, the lazy day reset, the price windows, and the sleep `run_loop`
  chooses.
- `state_store.dfy` covers `_save_state` and `_load_state` on the decoded content
  of `bot_state.json`.
- `image_api.dfy`, `nanobanana.dfy` and `nanobanana_draft.dfy` cover the payload
  rules of `generate_image` and the two polling loops of `generate_image_async`.
  The first loop is the one in bot.py; the second is the draft in
  bot_nanobanana_fix.py.
- `opinion.dfy` covers `_determine_post_tone` and the reaction line of
  `_add_opinion_text`. `markup.dfy` covers `escape_markdown` and the photo
  download URL.
- `config.dfy` holds the configuration constants and the two environment parsers
  that contain logic. `text.dfy` has the string functions Python provides
  (`lower`, `strip`, `split`, `in`, `isdigit`, `int`/`str`). `wrappers.dfy` holds
  `Option`.

Conventions:

- Time is an integer of Unix seconds. Host-local time, which the bot's naive
  datetimes use, is that plus a fixed offset. Moscow time is that plus 10800.
- Everything outside the process is a parameter. That covers the clock, what each
  Telegram send does, the DeepSeek texts, the image-poll replies, what the client
  yields, and whether a file can be written.
- Where a code comment and the code disagree, the model follows the code. `run_loop`
  sleeps `MIN_HOURS_BETWEEN_POSTS * 60` = 30 seconds between passes; its comment
  says 30 minutes.

## Model

| member | source | states |
|---|---|---|
| Config.MinSecondsBetweenPosts | config.py:236 | the 0.5-hour minimum spacing is 1800 seconds |
| Config.AllowedUsersEmpty | config.py:23-26 | an unset or empty variable allows no user |
| Config.AllowedUsers | config.py:22-26 | every allowed id is non-negative, and there are never more ids than comma-separated pieces |
| Config.KeptIds | config.py:26 | every kept id is non-negative, and there are never more ids than pieces |
| Config.AllowedUsersRoundTrip | config.py:23-26 | any list of user ids written as a comma-separated list parses back to the same list, in order, with repeats |
| Config.DroppedPiece | config.py:26 | a piece that fails the strip/isdigit filter contributes nothing, wherever it sits in the list |
| Config.SignedAndMixedPiecesDropped | config.py:26 | "-5", "12a" and a blank piece are all dropped |
| Config.DecimalPieceKept | config.py:26 | the decimal form of a natural number passes the filter and converts back to that number |
| Config.TelegramApiId | config.py:188-190 | an unset or empty variable gives 0 |
| Config.ParseInt | config.py:190 | a blank text raises (None), and a negative value needs an explicit minus sign |
| Config.ApiIdRoundTrip | config.py:188-190 | every integer written in decimal is read back as itself |
| Config.PriceHoursDistinct | config.py:240-241 | the two price hours are valid hours of the day and differ |
| Text.NormalizeIdempotent | bot.py:1293-1297 | the text a post hash is taken from does not change when normalised again |
| Text.NormalizeIgnoresCase | bot.py:1293-1297 | two texts that lower-case alike have the same hash text |
| Text.NormalizeIgnoresSpacing | bot.py:1293-1297 | replacing one run of whitespace between words by another keeps the hash text |
| Text.NormalizeIgnoresPadding | bot.py:1293-1297 | whitespace added around a text keeps the hash text |
| Text.NormalizeWithoutStrip | bot.py:1293-1297 | the strip before splitting changes nothing: splitting the lower-cased text directly gives the same words |
| Markup.EscapeMarkdown | bot.py:36-49 | the chain of replace passes equals the reference escaping, in which every markup character, the backslash included, gets exactly one backslash in front |
| Markup.UnescapeEscaped | bot.py:36-49 | escaping loses nothing: dropping the added backslashes gives back the original text |
| Markup.EscapedInjective | bot.py:36-49 | two different texts never escape to the same string |
| Markup.EscapedPlain | bot.py:36-49 | a text without markup characters is left unchanged |
| Markup.FileUrl | bot.py:2634-2650 | the download URL always starts with http:// or https:// and ends with the file path Telegram returned; a full http(s) path is kept as it is |
| Markup.TokenPrefixBranchDead | bot.py:2638-2647 | a path that starts with the file endpoint already starts with "https://", so the middle branch is never reached |
| Relevance.Found | bot.py:285-294 | found_general holds exactly the listed keywords that occur in the text, and is never longer than the list |
| Relevance.RelevantBy | bot.py:134-321 | an empty text is never relevant; the order of the other tests is stated by Relevance.HardExclusionWins, Relevance.StrictBeatsPolitical and Relevance.PoliticalWithoutStrictRejects |
| Relevance.IsRelevantNews | bot.py:134-321 | the classifier's verdict is the decision list with the keyword lists of the bot |
| Relevance.Classify | bot.py:134-321 | statement by statement, the body agrees with the decision list: empty text rejected, then hard exclusion, then strict keyword, then political marker, then two general keywords or one with context |
| Relevance.HitsStrict | bot.py:269-276 | the strict loop reports a hit exactly when some strict keyword, lower-cased and stripped, occurs in the text |
| Relevance.FindGeneral | bot.py:285-294 | the loop collects exactly the general keywords that occur, in list order |
| Relevance.RelevantIgnoresCase | bot.py:139 | the verdict depends only on the lower-cased text |
| Relevance.HardExclusionWins | bot.py:141-145 | a hard-exclusion term in any letter case rejects the text, strict keywords notwithstanding |
| Relevance.StrictBeatsPolitical | bot.py:269-281 | with a strict keyword present, the text is accepted exactly when it has no hard-exclusion term, whatever political markers it holds |
| Relevance.PoliticalWithoutStrictRejects | bot.py:278-281 | without a strict keyword, one political marker rejects, whatever general or context words occur |
| Relevance.StrictAccepts | bot.py:269-276 | a strict keyword accepts any text free of hard exclusions |
| Relevance.FoundDistinct | bot.py:285-294 | found_general has no repeats when the keyword list has none |
| Relevance.TwoGeneralMatchesAreDistinct | bot.py:296-303 | two general matches are two different keywords that both occur |
| Relevance.ExclusionNeedsLetters | bot.py:141-145 | a text without the letters у, k, з and z holds no hard-exclusion term |
| Relevance.UkraineHeadlineRejected | bot.py:141-145 | "Ukraine ceasefire talks" is rejected |
| Relevance.MoonAccepted | bot.py:262 | a text free of hard exclusions that mentions "moon" is accepted |
| Relevance.MoonHeadlineAccepted | bot.py:262 | "ETH to the Moon" is accepted |
| Ingestion.IsServiceMessage | bot.py:360-363 | a text of 100 characters or more that is not a download banner is never a service message |
| Ingestion.Worthy | bot.py:351-366 | a worthy text is non-blank after stripping and is not a download banner; Ingestion.NewsParser.ConsiderMessage takes a message exactly when it is worthy and new |
| Ingestion.Scan | bot.py:343-374 | a scan never takes more items than there are messages; Ingestion.ScanSound and Ingestion.ScanComplete state which items it takes |
| Ingestion.LoadProcessedIds | bot.py:62-72 | a missing or unreadable file gives no ids, and every loaded id is non-negative |
| Ingestion.IdsOf | bot.py:366-374 | every item's id is in the set of ids |
| Ingestion.NewsParser.constructor | bot.py:55-72 | the processed ids are those read from the file, or none when there is no file |
| Ingestion.NewsParser.SaveProcessedId | bot.py:74-80 | one line with the id is appended when the disk accepts writes; the id set is left alone |
| Ingestion.NewsParser.ConsiderMessage | bot.py:346-374 | a message is taken exactly when its id is new and its text is worthy; a taken id is added to the set and to the file |
| Ingestion.NewsParser.ScanMessages | bot.py:343-380 | the loop returns the scan of the yielded messages, adds exactly the taken ids to the set, and appends one line for each to the file |
| Ingestion.NewsParser.GetNewRelevantNews | bot.py:323-400 | nothing is fetched when the client is not ready; a scan that ends in an error returns no news but keeps the ids it marked; a FloodWait reports its seconds |
| Ingestion.ScanSound | bot.py:343-374 | every item comes from a yielded, worthy message whose id was not processed before |
| Ingestion.ScanComplete | bot.py:343-374 | no fresh worthy message is missed: its id is among the taken ids |
| Ingestion.ScanDistinct | bot.py:343-374 | one scan never takes an id twice |
| Ingestion.ScanAgainFindsNothing | bot.py:343-374 | a second scan of the same messages with the ids the first one recorded yields nothing |
| Ingestion.LoadedIdOf | bot.py:62-80 | the line written for an id reads back as that id, or as nothing when the id is negative |
| Ingestion.ReloadAfterAppend | bot.py:62-80 | after a scan, reloading the file gives the ids it held before plus the non-negative ids just taken |
| Ingestion.RenderedIds | bot.py:62-80 | the lines written for a series of items read back as their non-negative ids |
| StateStore.LoadState | bot.py:1316-1357 | a missing or unreadable file gives an empty guard; a present file gives the sets of its lists |
| StateStore.SetToSeq | bot.py:1359-1367 | a set becomes a list with each element exactly once |
| StateStore.TakeSnapshot | bot.py:1359-1367 | loading the snapshot that is saved gives back exactly the persisted state |
| StateStore.UnreadableIsFreshStart | bot.py:1348-1357 | a corrupt file starts the bot like a missing one |
| StateStore.LoadIgnoresListOrder | bot.py:1336-1347 | the order and repeats of the saved lists do not matter on load |
| Schedule.Midnight | bot.py:1048 | the midnight of a moment is a day boundary at most a day before it |
| Schedule.MidnightAtLeast | bot.py:1522-1526 | no day boundary at or before a moment is later than its midnight |
| Schedule.MskHour | bot.py:1634-1648 | the Moscow hour is between 0 and 23 |
| Schedule.MskMinute | bot.py:1634-1648 | the Moscow minute is between 0 and 59 |
| Schedule.MskDateMonotone | bot.py:1634-1664 | a later moment never has an earlier Moscow date |
| Schedule.CycleGateOpen | bot.py:1569-1579 | the gate is open once a full 1800 seconds have passed since the last post, and shut for the first minute after it |
| Schedule.RollDay | bot.py:1522-1526 | a reset starts a fresh quota of POSTS_PER_DAY; a midnight reset_time stays a midnight and never moves back; the current time lies in the day it opens |
| Schedule.IntervalPassed | bot.py:1533-1540 | 1800 seconds since the last post also open the cycle gate |
| Schedule.PublishAllowed | bot.py:1518-1542 | whatever it allows, the cycle gate allows too; once a new day has begun, the interval alone decides, since the quota starts over |
| Schedule.CyclePostsSpaced | bot.py:1569-1579 | over any series of news cycles, consecutive posts lie at least 1794 seconds apart, and the first is that far after the last post before the series |
| Schedule.GateClosedRightAfterPost | bot.py:1569-1579 | two checks in quick succession after a post are both refused |
| Schedule.RollDayLandsInDay | bot.py:1522-1526 | after the reset check the current time lies in the day that starts at reset_time |
| Schedule.ResetsOncePerDay | bot.py:1522-1526 | over any series of checks, every installed reset_time is a midnight and consecutive ones are at least a day apart |
| Schedule.QuotaGateStricter | bot.py:1518-1542 | whatever should_publish_now lets through, the cycle gate lets through too |
| Schedule.ShouldPostPrice | bot.py:1634-1664 | a track is due only in the first sixteen minutes of its Moscow hour and only when its last date is not today's Moscow date; for either price hour the loop is then polling every minute |
| Schedule.PriceWindowsDisjoint | bot.py:1634-1664 | the morning and evening price windows never overlap |
| Schedule.PriceOncePerDate | bot.py:1634-1696 | over a chronological series of checks, a price track records strictly increasing Moscow dates, none before the first check |
| Schedule.PriceTailAfter | bot.py:1634-1696 | once a track has recorded a date, every later post of it lies on a later date |
| Schedule.CheckInterval | bot.py:1753-1767 | the sleep is 60 seconds exactly when near a price time (five minutes before to fifteen after), and 30 seconds otherwise; every moment of a price window gets the 60-second sleep; the sleep is always shorter than the 1794 seconds the cycle gate needs |
| Schedule.NearPriceTime | bot.py:1753-1758 | every moment of a price window counts as near that price time |
| Schedule.WindowPolledEveryMinute | bot.py:1753-1767 | every price window lies inside the one-minute polling period |
| Schedule.NextWakeRefused | bot.py:1569-1579 | the loop wakes long before the cycle gate reopens, so the check right after a post is refused |
| ImageApi.CallbackUrl | bot.py:422 | a configured non-empty callback is used, otherwise the stand-in URL, so the callBackUrl sent is never empty |
| ImageApi.ClampImages | bot.py:460 | the image count is clamped into 1..4 and kept when already there |
| ImageApi.BuildPayload | bot.py:447-466 | edit mode without image URLs sends nothing; otherwise the payload carries the prompt, the mode's type, the callback, the clamped count and the size, with the URLs only in edit mode |
| ImageApi.TaskIdOf | bot.py:468-486 | a task id is returned exactly for an HTTP 200 reply whose code is 200 and whose id is non-empty, and it is the reply's id |
| NanoBanana.Verdict | bot.py:554-601 | a poll decides exactly when successFlag is 1, 2 or 3; flags 2 and 3 give no image; only flag 1 can yield an image, which is resultImageUrl when truthy and otherwise a truthy originImageUrl |
| NanoBanana.AwaitImage | bot.py:549-604 | the loop returns the outcome and the poll count of the reference poll sequence |
| NanoBanana.GenerateImageAsync | bot.py:527-604 | with no request or no task id the result is no image after no polls; otherwise it is the poll loop's; one 1:1 image is asked for; polling starts only after an HTTP 200 reply with code 200 and never exceeds 36 attempts |
| NanoBanana.PollBound | bot.py:549-550 | at most 36 status requests are made |
| NanoBanana.PollSkips | bot.py:549-601 | polls that decide nothing are passed over |
| NanoBanana.FirstVerdictDecides | bot.py:549-601 | the first deciding poll fixes the outcome, after exactly that many requests |
| NanoBanana.TimeoutGivesNoImage | bot.py:603-604 | 36 undecided polls end with no image after exactly 36 requests |
| NanoBanana.ReadyComesFromSuccess | bot.py:570-584 | an image URL is only returned from a flag-1 status that names it |
| NanoBanana.FailedFlagGivesNoImage | bot.py:585-592 | at any poll, successFlag 2 or 3 ends the loop there with no image |
| NanoBanana.NamedImageReturned | bot.py:570-580 | at any poll, a success naming an image ends the loop there with that URL, resultImageUrl before originImageUrl |
| NanoBanana.SuccessWithoutUrlStops | bot.py:570-584 | at any poll, a success reply with no response object or with neither URL truthy ends the loop there with no image |
| NanoBanana.ContinuingStatuses | bot.py:593-601 | an empty reply, flag 0, a missing flag and an unknown flag all keep polling |
| NanoBananaDraft.FirstTruthy | bot_nanobanana_fix.py:144-148 | the chain of `or` gives a truthy value exactly when one of the five URL keys holds one |
| NanoBananaDraft.Verdict | bot_nanobanana_fix.py:132-165 | a missing reply decides nothing; an image is only decided from a finished reply whose picked URL it is |
| NanoBananaDraft.AwaitImage | bot_nanobanana_fix.py:128-169 | the loop returns the outcome and the poll count of the reference poll sequence |
| NanoBananaDraft.GenerateImageAsync | bot_nanobanana_fix.py:106-169 | with no request or no task id the result is no image after no polls; otherwise it is the poll loop's; polling starts only after an HTTP 200 reply with code 200 and never exceeds 36 attempts |
| NanoBananaDraft.PollBound | bot_nanobanana_fix.py:128-129 | at most 36 status requests are made |
| NanoBananaDraft.PollSkips | bot_nanobanana_fix.py:128-167 | polls that decide nothing are passed over |
| NanoBananaDraft.TimeoutGivesNoImage | bot_nanobanana_fix.py:168-169 | 36 undecided polls end with no image after 36 requests |
| NanoBananaDraft.SuccessWithoutUrlContinues | bot_nanobanana_fix.py:142-161 | at any poll, a finished reply whose URL keys give nothing truthy does not end the loop: the next poll decides |
| NanoBananaDraft.SuccessBeatsFailure | bot_nanobanana_fix.py:142-165 | success is tested before failure: any finished reply that names a URL yields that image, whatever failure word its other field holds |
| NanoBananaDraft.FailureGivesNoImage | bot_nanobanana_fix.py:162-165 | at any poll, a 'failed' or 'error' reply that is not also finished ends the loop there with no image |
| NanoBananaDraft.MissingReplyContinues | bot_nanobanana_fix.py:132-135 | at any poll, a missing reply keeps the loop polling |
| NanoBananaDraft.SuccessStatusFailedState | bot_nanobanana_fix.py:138-156 | a 'Success' status with a 'failed' state and a URL list yields the list's first URL |
| NanoBananaDraft.NullStatusCrashes | bot_nanobanana_fix.py:138-139 | a JSON-null status raises out of the loop after one poll |
| NanoBananaDraft.ReadyComesFromDone | bot_nanobanana_fix.py:142-156 | an image URL is only returned from a finished reply that names it under one of the five keys |
| Opinion.Matches | bot.py:1127-1128 | a word count never exceeds the number of words in the list |
| Opinion.Tone | bot.py:1110-1134 | the tone is always the clown or the fire |
| Opinion.ToneIgnoresCase | bot.py:1112 | the tone depends only on the lower-cased content |
| Opinion.NeutralIsClown | bot.py:1127-1134 | a post with no tone word gets the clown, because a tie goes to it |
| Opinion.NoPositiveIsClown | bot.py:1127-1134 | a post without a positive word gets the clown, whatever negative words it holds |
| Opinion.OnlyPositiveIsFire | bot.py:1127-1134 | one positive word and no negative one give the fire |
| Opinion.Shortened | bot.py:1225-1229 | the phrase has at most seven words and is left alone when it already has |
| Opinion.Reaction | bot.py:1225-1245 | the reaction has at most seven words, and unless it is the tone's fixed phrase it holds no forbidden word |
| Opinion.Phrase | bot.py:1247-1286 | the phrase after the emoji is either the tone's fixed phrase or the generated reaction |
| Opinion.OpinionSuffix | bot.py:1261-1291 | the appended text is a blank line, the tone's emoji and " - ", then a phrase of at most seven words |
| Opinion.FallbackWhenUnusable | bot.py:1231-1286 | a failed request, an empty phrase or a forbidden word gives the tone's fixed phrase |
| Opinion.FallbackShort | bot.py:1273-1279 | both fixed phrases are non-empty and at most seven words |
| Opinion.PhraseBounded | bot.py:1225-1286 | the appended phrase is never empty and never longer than seven words |
| Opinion.WithOpinion | bot.py:1261-1291 | the sent text is the post followed by a non-empty reaction suffix |
| Bot.MessageText | bot.py:1261-1291 | the text Telegram receives starts with the post and is longer than it |
| Bot.PostHash | bot.py:1293-1297 | the hash text is already normalised: normalising it again gives it back |
| Bot.Refused | bot.py:1377-1384 | a published hash always refuses the post; without a truthy news id the hash is the only guard |
| Bot.RouteOf | bot.py:1386-1468 | a post is delivered exactly when the try body's send succeeds or the fallback send does; the try body delivers it exactly when there is no image crash and its send succeeds; the generic handler is reached only through a crash or a non-Telegram error |
| Bot.FreshIndex | bot.py:1588-1595 | the chosen item is the first whose id was never used for a post |
| Bot.PublishedRecords | bot.py:1420-1468 | a post past both guards is recorded exactly when some route delivers it, without its news id when the generic handler did |
| Bot.ChannelBot.constructor | bot.py:1024-1063 | the guard is what bot_state.json holds, and an unreadable file gives an empty guard; the counters start over; reset_time is today's midnight; the price tracks are empty |
| Bot.ChannelBot.IsDuplicate | bot.py:1299-1302 | true exactly when the post's hash is among the published ones, and then publish_post refuses it whatever its news id and delivery |
| Bot.ChannelBot.SaveState | bot.py:1359-1372 | the fields are untouched, and once written the file loads back as the persisted part of the state |
| Bot.ChannelBot.MarkAsPublished | bot.py:1304-1314 | the post's hash is added, and its news id when truthy; the state is saved |
| Bot.ChannelBot.RecordPost | bot.py:1420-1428 | a delivered post is counted, timed (unless it is a price post) and marked |
| Bot.ChannelBot.PublishPost | bot.py:1374-1468 | True exactly when neither guard refuses and some route delivers; the new state is the publish transition; what reaches the channel is that route's message |
| Bot.ChannelBot.Deliver | bot.py:1386-1468 | the try body and its two handlers perform the routed transition and send the routed message |
| Bot.ChannelBot.SendPrimary | bot.py:1386-1428 | a photo with the caption when there is an image, otherwise a text; the post is recorded with its news id |
| Bot.ChannelBot.RetryAsText | bot.py:1429-1468 | the fallback sends the post as text and records it only when that send succeeds |
| Bot.ChannelBot.PublishPostManual | bot.py:1470-1516 | True exactly when the text is new and the send succeeds; only then is the post recorded |
| Bot.ChannelBot.ShouldPublishNow | bot.py:1518-1542 | the lazy day reset is applied; the answer is room in the quota and 1800 seconds since the last post |
| Bot.ChannelBot.CheckAndPublishNewNews | bot.py:1566-1628 | a closed gate fetches nothing; otherwise the fetched news decides; the first fresh item's usable, relevant post is published with its id; the quota is never consulted |
| Bot.ChannelBot.GenerateAndPublishPrice | bot.py:1666-1696 | a price post is published when there is a price and a usable text; the track records the Moscow date it went out on |
| Bot.ChannelBot.GenerateAndPublish | bot.py:1698-1728 | the quota path resets the day, fetches only when allowed, and publishes without a news id |
| Bot.ChannelBot.ShouldPostPriceNow | bot.py:1634-1664 | a due track is one the loop polls every minute and whose last date is not today's Moscow date |
| Bot.ChannelBot.PriceCheck | bot.py:1771-1782 | a track that is due gets its price post; otherwise nothing changes |
| Bot.ChannelBot.RunLoopStart | bot.py:1739-1745 | before the loop, the two price checks run and then the news check; under a closed cycle gate nothing is fetched and the processed ids and their file are unchanged, otherwise the news and the parser's new state are those of the fetch |
| Bot.ChannelBot.RunLoopIteration | bot.py:1753-1782 | one pass sleeps the chosen interval, then runs the news check and the two price checks; the quota fields are untouched; under a closed cycle gate nothing is fetched and the processed ids and their file are unchanged, otherwise the news and the parser's new state are those of the fetch |
| Bot.RepublishRefused | bot.py:1377-1384 | once a post is delivered, the same text is refused with any news id |
| Bot.NewsIdRefused | bot.py:1380-1384 | the news id of a post delivered by the try body or the Telegram handler blocks any later post for that news |
| Bot.LostNewsIdCanRepeat | bot.py:1449-1468 | a post delivered by the generic handler loses its news id, so the same news can be posted again under another text |
| Bot.RecaseRefused | bot.py:1293-1302 | changing only the case of a published text does not pass the guard |
| Bot.RespaceRefused | bot.py:1293-1302 | changing the whitespace between words does not pass the guard |
| Bot.RepadRefused | bot.py:1293-1302 | adding whitespace around a published text does not pass the guard |
| Bot.PublishCounts | bot.py:1420-1428 | only delivered posts are counted; a price post does not move last_post_time; nothing else changes |
| Bot.PublishKeepsMarks | bot.py:1304-1314 | publishing never forgets a text or a news id |
| Bot.PriceCheckKeepsMarks | bot.py:1666-1696 | a price check forgets no mark and leaves last_post_time alone |
| Bot.IterationKeepsMarks | bot.py:1771-1782 | a post refused once is refused after every later pass of the loop |
| Bot.PricePostKeepsGate | bot.py:1666-1696 | a price post neither needs nor moves the cycle gate |
| Bot.PricePostClosesTrack | bot.py:1682-1688 | after a price post, its track is not due again on that Moscow date |
| Bot.CycleIgnoresQuota | bot.py:1566-1628 | the news cycle publishes alike whatever posts_today is |
| Bot.CyclePostsFirstFresh | bot.py:1588-1619 | the cycle publishes the first fresh item, counts and times the post, and marks its hash |
| Bot.IterationKeepsQuota | bot.py:1771-1782 | a pass of the loop never changes reset_time or posts_target |
| Bot.RestartRestores | bot.py:1044-1063 | a restart keeps exactly what bot_state.json holds; the counters and the price tracks start empty |
| Bot.PriceRepeatsAfterRestart | bot.py:1049-1052 | a restart inside a price window makes that track due again, so the price can be posted twice the same day |

## Left out

- The network: the Telethon client and its login, the Telegram Bot API calls, the DeepSeek
  and NanoBanana HTTP requests, and the TON price fetcher. Their results are parameters.
- asyncio, the sleeps themselves, and the `run_loop` handler that waits a minute after an
  exception. Only the interval the loop asks for is modelled.
- The Telegram command and button handlers (/start, /p, /genetat and the rest), apart from
  `publish_post_manual` and the download URL of a /genetat photo.
- The prompt texts sent to DeepSeek and anything random; floating point. The 0.5-hour
  spacing is modelled as whole seconds.
- The character clean-up of the DeepSeek reaction reply (bot.py:1212-1223): quotes, emoji,
  trailing punctuation and leading dashes. The reply after that clean-up is the input.
- Python's `lower` is modelled for A-Z, А-Я and Ё only. Other capitals, such as the
  Ukrainian and Belarusian І, Ї, Є and Ў, are not lowered, so a keyword or tone word
  written with them may match in Python and not in the model.
- Python's `isspace`, used by `strip` and `split()`, is modelled as the six ASCII
  whitespace characters only. U+001C-U+001F, U+0085, U+00A0, U+2000-U+200A and the other
  Unicode spaces are treated as ordinary characters.
- Python's `isdigit` and `int` are modelled for 0-9 only. A piece that passes `isdigit`
  but not `int`, such as "²", makes config.py:26 raise ValueError and aborts the import;
  the model drops that piece instead. Non-ASCII decimal digits are not modelled either.
- Config.ParseInt: `int` also accepts underscores between digits ("1_000"); the model
  returns None for them.
- Ingestion.LoadProcessedIds: a line that passes `isdigit` but not `int` ("²") raises
  inside the set comprehension at bot.py:64-72, and the whole file then loads as the empty
  set. The model reads digits as 0-9 only and never takes that path.
- The JSON text of bot_state.json and the ISO date format. The file is modelled by its
  decoded content.
- Bot.PostHash: MD5 is not modelled. The hash is the normalised text itself, so two posts
  share a hash exactly when they normalise alike; MD5 collisions are not captured.
- Bot.Caption: the message text is the post with its reaction inputs, not the rendered
  Markdown.
- `cached_news` and `last_news_check`: they are only assigned (bot.py:1049-1050) and never
  read. `MAX_HOURS_BETWEEN_POSTS` is read into a local at bot.py:1537 that nothing uses.
- The exception path of `_add_opinion_text`, which returns the post without any reaction
  line. The model always appends one.
- Markup.FileUrl: the middle branch of the URL construction is left out because it can
  never be taken (Markup.TokenPrefixBranchDead).
- The price dates and post counters are not saved in bot_state.json. The model keeps this
  as written (Bot.PriceRepeatsAfterRestart).
- Schedule.PriceOncePerDate: assumes each price post finishes on the Moscow date of its
  window check. A post that straddles midnight is not covered.
- The keyword lists of config.py, which the classifier does not read. The lists of
  `is_relevant_news` itself are modelled.
- test_specific_news.py, a manual script, is not part of this model.
