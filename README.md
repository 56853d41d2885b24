# Discord invite checker — a verified model of `checker.py`

`checker.py` reads raw invite links from `invites.txt` and proxies from
`proxies.txt`. It reduces each invite line to an invite code and drops
repeated proxies and repeated codes. It then looks up every distinct code once
and sorts the result into files:

- `valid.txt` and `valid_ids.txt` for hits;
- `bad.txt` for rejections;
- `invalid.txt` for dead invites;
- `failed.txt` for failures.

Along the way it counts hits, bad invites and failures, and remembers which
guilds (servers) it has already judged. This project models that core in Dafny
and proves what it promises.

- `wrappers.dfy`: module `Wrappers`, with the `Option` type.
- `normalizer.dfy`: module `Normalizer`, for `normalize_invite`. This is pure
  code:
  - `Strip` is Python's `str.strip()`, with the whole set of characters
    `str.isspace` accepts.
  - The regular expression
    `(?:https?://)?(?:www\.)?(?:discord(?:app)?\.com/invite/|disco?d\.gg/)?([A-Za-z0-9-]+)(?:/)?$`
    is modelled by the strings it accepts: `MatchesAt` ranges over the finite
    set of prefixes `IsLinkPrefix` (3 schemes, 2 "www." forms, 5 host paths).
  - `IsLeftmostMatch` is the match `re.search` reports.
  - `Normalize` computes the code directly: the final run of code characters
    of the stripped line, after dropping one trailing '/'.
  - `NormalizeIsLeftmostMatch` proves this is exactly the group of the
    leftmost match, and `None` exactly when nothing matches.
  - The direct computation is right because every optional prefix ends in '/'
    or '.' (`LinkPrefixEnd`), so no prefix can eat into the code.
  - The same fact makes the host alternative irrelevant to the result. The
    alternative `disco?d\.gg/` accepts "discod.gg/" and "discd.gg/" but not
    "discord.gg/". Even so, `https://discord.gg/abc` still gives `abc`
    (`NormalizeShortLink`).
- `dedup.dfy`: module `Dedup`, for the two deduplication loops of `main`.
  - The imperative loop `DedupBy` takes the per-line key as a parameter.
    `DedupProxies` gives it the stripped line; `DedupInvites` gives it the
    invite code.
  - Both loops are proved equal to the reference function `Dedupe`.
    `DedupeIsFirstOccurrence` proves that `Dedupe` keeps each element once, in
    order of first appearance. `DedupDetermined` proves that this description
    allows only one result.
- `checker.dfy`: module `Checker`, for `check_invite`, `handle_result` and the
  module-level state. The specification is a set of pure functions:
  - `Extract`: which fields `check_invite` reads and what a missing key raises.
  - `Judge`: `handle_result` as a value.
  - `Classify`: how the lookup of one code ends.
  - `Record`, `Step` and `Run`: the new state, as a `Ledger` of the counters,
    the seen-guild set and what was appended to each file.
- The class `Session` holds the script's global state: the config, a `Counter`,
  the seen guild ids and the five output files as sequences.
  - `HandleResult`, `CheckInvite` and `CheckAll` change that state step by
    step, as the Python code does.
  - Each method's postcondition ties its new state to `Judge`, `Record` or
    `Run`.
  - The lemmas about `Step` and `Run` state the properties of the checker.

The HTTP request is an input. A `Lookup` says what `send_request` returned:

- the request failed;
- the body was JSON null;
- the body was JSON but not an object;
- the body was an object (`Response`). Each of its keys may be missing, null
  or present (`Field`).

Three behaviours of the code are easy to miss; the model keeps each of them:

- A non-server invite (type ≠ 0) does not record its guild id as seen, since
  checker.py:165-170 returns before line 172 adds it (`StepNotServerInvite`).
- A missing `"type"` or `"guild"` key is a dead invite, just like a missing
  guild id or name. This check happens before the duplicate-guild check.
- A null `"guild"`, a non-object body and a null count all raise `TypeError`,
  which goes to `failed.txt`. A null count raises only after the guild id was
  added to the seen set (`NullMembersFails`).

## Model

| member | source | states |
|---|---|---|
| Normalizer.Strip | checker.py:52 | the stripped line is no longer than the input, is empty exactly when the line is all whitespace, and neither starts nor ends with whitespace |
| Normalizer.StripIsInfix | checker.py:52 | the stripped line is a contiguous part of the input |
| Normalizer.StripUnchanged | checker.py:52 | a line with no whitespace at either end is left as it is |
| Normalizer.StripTwice | checker.py:52 | stripping is idempotent |
| Normalizer.LinkPrefixEnd | checker.py:56-58 | every optional prefix accepted in front of the group is empty or ends in '/' or '.' |
| Normalizer.Normalize | checker.py:49-63 | a blank or whitespace-only line has no code; a returned code is never empty and holds only `[A-Za-z0-9-]` |
| Normalizer.NormalizeShape | checker.py:49-63 | a returned code is a suffix of the stripped line or of it minus one final '/', with no code character before it; None exactly when that part does not end in a code character |
| Normalizer.LeftmostCapturesCode | checker.py:56-61 | the group of a leftmost match is the returned code |
| Normalizer.NormalizeIsLeftmostMatch | checker.py:56-63 | the result is the group of the leftmost match of the pattern, and None exactly when there is no match |
| Normalizer.NormalizeCode | checker.py:56-61 | a bare code normalises to itself |
| Normalizer.NormalizeIdempotent | checker.py:56-61 | normalising a returned code gives the same code back |
| Normalizer.NormalizeLink | checker.py:52-61 | any text in front of a code, leading whitespace included, is ignored as long as it is empty or ends in a non-code character; one '/' after the code is dropped and whitespace after it is stripped |
| Normalizer.NormalizeShortLink | checker.py:56-61 | `https://discord.gg/abc123` yields `abc123` |
| Normalizer.NormalizeWwwLink | checker.py:56-61 | `www.discord.gg/abc-123` yields `abc-123` |
| Normalizer.NormalizeLongLink | checker.py:56-61 | `https://discord.com/invite/abc123/` yields `abc123` |
| Normalizer.NormalizeAppLink | checker.py:56-61 | `discordapp.com/invite/abc-123` yields `abc-123` |
| Normalizer.NormalizeBareCode | checker.py:56-61 | `abc123` yields `abc123` |
| Normalizer.NormalizeDoubleSlash | checker.py:52-63 | every line whose stripped form ends in `//` yields None |
| Normalizer.NormalizeWhitespaceLine | checker.py:52-54 | the line `" \t\n"` yields None |
| Dedup.ProxyKey | checker.py:222-223 | a line gives no proxy exactly when it is all whitespace; a proxy is non-empty and already stripped |
| Dedup.InviteKey | checker.py:235-237 | the key is exactly `normalize_invite`'s result, so the `not invite_code` test drops only lines with no code; a key is a non-empty code that normalises to itself |
| Dedup.KeysAreKeys | checker.py:234-239 | every kept key is the key of some input line |
| Dedup.KeysHaveEveryKey | checker.py:234-239 | the key of every line that has one is kept |
| Dedup.EntriesAreStripped | checker.py:222-223 | every proxy entry is non-blank and already stripped |
| Dedup.CodesAreCodes | checker.py:235-237 | every collected invite code is non-empty and made of code characters |
| Dedup.CodesOfBareCodes | checker.py:235-239 | lines that are bare codes are collected unchanged and in order |
| Dedup.DedupeIsFirstOccurrence | checker.py:234-241 | the reference dedup holds each element of the input exactly once, no other element, in order of first appearance |
| Dedup.DedupDetermined | checker.py:234-241 | there is only one list with those properties |
| Dedup.DedupBy | checker.py:234-241 | the loop returns the reference dedup of the lines' keys, and the repeat count is the number of keys minus the number kept |
| Dedup.DedupProxies | checker.py:221-226 | the deduplicated proxies are the first occurrences of the non-blank stripped lines; repeats plus kept equals non-blank lines |
| Dedup.DedupInvites | checker.py:234-241 | the deduplicated invites are the first occurrences of the lines' codes; repeats plus kept equals lines with a code |
| Dedup.DedupExample | checker.py:234-241 | codes a, a, b (a ≠ b) leave a, b and one repeat |
| Checker.Extract | checker.py:150-159 | a missing "type", "guild", guild "id" or "name" raises KeyError; a null or non-object guild raises TypeError; otherwise every field is read, counts defaulting to 0 |
| Checker.Judge | checker.py:96-143 | a hit exactly when every count is a number, `min_members ≤ members ≤ max_members`, `boosts ≥ min_boosts`, `online ≥ min_members_online`, and (not permanent-only or no expiry); each rejection reason exactly when its check is the first to fail in that order; a raise exactly when a null count is the first thing compared that fails |
| Checker.Classify | checker.py:146-183 | a judged invite's guild was not seen before; a duplicate is an extracted response whose guild was seen |
| Checker.MissingCountsReadAsZero | checker.py:157-159 | a response without a member, presence or boost count is checked exactly as if that count were present and 0 |
| Checker.Record | checker.py:146-183 | the counter total rises by 1 unless the body was null or the guild already seen; the seen set gains the guild of a judged invite and nothing else; every file is only appended to |
| Checker.Step | checker.py:146-183 | one call leaves the state unchanged exactly when the body is null or its guild was seen before |
| Checker.StepRaisesOneCounter | checker.py:146-183 | each call raises exactly one of hit, bad and failed by exactly 1, except a null body or an already-seen guild, which change no counter |
| Checker.StepHitIff | checker.py:146-173 | a hit exactly when the response has type 0, a guild id and name, an unseen guild and numeric counts meeting every threshold; a hit appends the code to valid.txt, the id to valid_ids.txt and the id to the seen set, and changes nothing else |
| Checker.StepFailedRequest | checker.py:79-84 | a failed request adds 1 to failed and the code to failed.txt, nothing else |
| Checker.StepDeadInvite | checker.py:174-178 | a response missing a required key adds 1 to bad and the code to invalid.txt, whatever guilds were seen |
| Checker.StepDuplicateGuild | checker.py:161-163 | an already-seen guild changes no counter, file or set |
| Checker.StepNotServerInvite | checker.py:165-170 | a non-server invite of an unseen guild adds 1 to bad and the code to bad.txt, and leaves its guild unseen |
| Checker.StepRecordsJudgedGuild | checker.py:172-173 | a server invite of an unseen guild records its id as seen whatever the verdict |
| Checker.StepKeepsConsistent | checker.py:134-143 | counters keep matching the file lines, and every valid guild id is seen and listed once |
| Checker.RunKeepsConsistent | checker.py:244-245 | the same agreement holds after a whole sequential pass |
| Checker.Run | checker.py:244-245 | a pass raises the counter total by at most one per code and only grows the seen set |
| Checker.ValidGuildsOnce | checker.py:161-172 | over a pass from the start, no guild id is written to valid_ids.txt twice, and hit equals the number of valid.txt lines |
| Checker.MemberBoundsInclusive | checker.py:97 | with bounds 10..100, 10 and 100 members are hits and 9 and 101 are member-amount rejections |
| Checker.SecondInviteToGuildSkipped | checker.py:161-172 | for any configuration and state, once a server invite to an unseen guild is judged, a later invite whose response names the same guild leaves the state unchanged, whatever the first verdict |
| Checker.NullMembersFails | checker.py:172-183 | a null member count gives failed 1 and a failed.txt line, with the guild recorded as seen |
| Checker.Counter.constructor | checker.py:36-40 | the counters start at 0 |
| Checker.Session.constructor | checker.py:43-46 | a fresh session has zero counters, no seen guilds and empty files |
| Checker.Session.RecordFailure | checker.py:79-84 | adds 1 to failed and the code to failed.txt |
| Checker.Session.RecordBad | checker.py:127-131 | adds 1 to bad and the code to bad.txt |
| Checker.Session.HandleResult | checker.py:87-143 | returns `Judge` of its inputs and writes what that verdict writes (nothing on a raise) |
| Checker.Session.CheckInvite | checker.py:146-183 | returns `Classify` of the lookup and the old seen set, and leaves the state `Record` gives |
| Checker.Session.CheckAll | checker.py:244-245 | leaves the state `Run` gives for the codes in order |
| Checker.CheckFiles | checker.py:217-245 | deduplicates both files; with at least one thread, leaves the state of a pass over the deduplicated codes from an empty state; with none, checks no code, as the thread pool raises `ValueError` |

## Left out

- The HTTP request of `send_request` (its URL, the 7.5 s timeout, the status check and JSON parsing) is network I/O. Its result is the `Lookup` input; only the failure bookkeeping is modelled.
- The random choice of a proxy per request is not modelled. `Session` keeps the deduplicated proxies but no request uses them.
- `Config.load` reads config.json; the model takes `Config` as a value.
- Checker.CheckFiles: the `ValueError` of a pool with `threads` <= 0 is modelled only as `started` being false with nothing checked. Its traceback, and the final tally it stops from being printed, are console output. Beyond that check, the number of threads has no effect on a sequential pass.
- The `ThreadPoolExecutor` is modelled as a sequential pass in list order. Its concurrency is left out, including the race between the seen check (line 161) and the insertion (line 172).
- The banner, the `input` prompt and every `print` are console output and are not modelled.
- The files are modelled as what one pass appends. Lines already in the files and write errors are not modelled.
- JSON values of unexpected types are partly left out: a null or non-string guild id, and float or boolean counts and types. Python compares `0 == 0.0 == False`, but the model takes a type to be an integer or non-numeric, and counts to be integers or null.
- Scheduled cycles, the reset between cycles and chat notifications are not part of this `checker.py`, so they are not modelled.

