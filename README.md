# Forwarder bot: access control and routing, modelled in Dafny

The bot relays private messages from strangers to one owner and relays the
owner's replies back. Strangers must first answer an arithmetic challenge.
This project models the part of the bot that decides and records things:
- who may talk to the owner;
- how the challenge is graded;
- which relayed message belongs to which sender;
- what the owner's commands and buttons change.

Two versions of the bot are modelled, each in two layers.

- `forwarder_bot_v7.py` has one state object, `DataManager`.
  - `v7_spec.dfy` (module `ForwarderV7Spec`) gives that state as a value, `Store`. Each handler is a function from a `Store` to a `Step`, which holds the new store and what the handler reports. The properties are ensures clauses and lemmas on these functions. The main ones:
    - whitelist, blacklist and pending are pairwise disjoint, and every pending challenge has 0-2 wrong answers and an answer in [11, 59]; every handler keeps this;
    - the gate decides in a fixed order;
    - only the sender's own membership changes;
    - counters never decrease;
    - message ids are routed back to their senders;
    - pressing a button twice, or clearing twice, has the stated effect.
  - `v7_bot.dfy` (module `ForwarderV7`) is the imperative form. `DataManager` is a class whose membership methods update its fields in place. Each handler is a module-level method that takes the `DataManager`, proved to change the object exactly as the spec function changes a `Store`. The broadcast loop is proved directly: its success and failure tallies are the reachable and the unreachable whitelisted users, and together they cover the whole whitelist.
- `forwarder_bot_v6.py` is the earlier version, built on module globals and two stacked decorators.
  - The outer firewall drops anyone in a manually kept ban set.
  - The inner quiz layer keeps its own blacklist, a table of expected answers, a table of mistake counts and a list of admitted users.
  - `v6_spec.dfy` (module `ForwarderV6Spec`) and `v6_bot.dfy` (module `ForwarderV6`, class `Globals`) repeat the v7 pattern.
- `versions.dfy` (module `VersionComparison`) compares how the two versions grade an answer and treat an update without text.
- `py_text.dfy` (module `PyText`) holds the Python string operations the code depends on, on ASCII text: `str.strip()`, `str(int)`, `int(str)`, `str.split(':')` and `p in s`. It proves their round trips. `wrappers.dfy` holds `Option`.

Everything external is a parameter of the model.
- Each Telegram call whose failure changes the modelled state or the reported outcome is a boolean or `Option` parameter, true or `Some` when it succeeds. These are the relay's header and forward sends (and v7's control-panel send), each version's copy of the owner's reply, the v7 check_answer's unguarded failure notice (`noticeSent`), and the `query.answer()` that both button callbacks make before anything else (`answered`).
- A reply sent after the state has changed, or inside a `try` that swallows its error, changes nothing the model records and has no parameter.
- The forwarded message's id is `Some(id)`.
- The transport error text's "blocked" test is a boolean.
- A broadcast send to user v succeeds exactly when v is in the parameter set `reachable`.
- The two `random.randint` draws are parameters `a`, `b` with `10 <= a <= 50` and `1 <= b <= 9`.

### Behaviour of the code worth noting
- **Owner check after the blacklist (v7).** The v7 gate checks the blacklist before the owner, so a blacklisted owner is dropped (`forwarder_bot_v7.py:244-249`).
- **Non-text updates (v7).** A pending user's update without text is ignored and costs no attempt (`forwarder_bot_v7.py:252-256`).
- **Unban (v7).** `/unban` and the ban button's unban only remove the id from the blacklist. The id is not whitelisted, so it is challenged again (`forwarder_bot_v7.py:151-153`).
- **Mapping before the panel (v7).** A forward records the routing entry once the header and the forward succeed. `total_messages` goes up only after the control panel is also sent (`forwarder_bot_v7.py:434-452`).
- **Non-text updates (v6).** v6 grades an absent or empty text as a wrong answer (`forwarder_bot_v6.py:240`).
- **Two whitespace sets.** `str.strip()` removes the separators 0x1C-0x1F, but `int()` does not skip them, so `int("\x1c5")` raises (`StripDropsSeparator`, `IntKeepsSeparator`). The ids parsed at `forwarder_bot_v7.py:360` and `501` and `forwarder_bot_v6.py:387` go through `int()` alone, so callback data such as "ban:\x1c5" is reported as malformed. The v7 answer is stripped first, and `int()` then has nothing left to skip (`ParseIntStripped`, `AnswerIsIntOfStrip`).
- **String grading (v6).** v6 accepts only the exact string `str(answer)` after stripping, so "042" is refused where v7 accepts it.
- **No owner check on the ban button (v6).** The v6 button callback checks nobody, so anyone able to send the callback data can toggle any id, the owner's included (`forwarder_bot_v6.py:379-396`).
- **Id 0 (v6).** `sync_ban_storage('A', 0)` adds nothing, so toggling id 0 never bans it. The model reports it as not banned, although the panel text for that branch says "Banned".
- **Unguarded failure notice (v7).** The third wrong answer blacklists the user before the failure notice is sent, and counts the blocked attempt only after it. The send is outside any `try`, so when it raises the ban stays and the counter does not move (`forwarder_bot_v7.py:219-225`).
- **Acknowledging the button first.** Both callbacks call `query.answer()` before looking at the data. When that call raises, nothing is toggled (`forwarder_bot_v7.py:495`, `forwarder_bot_v6.py:382`).
- **Both wrappers on every v6 handler.** In v6, `main()` runs after all the decorator rebinding. The registered reply and clear handlers are therefore behind both wrappers as well (`forwarder_bot_v6.py:300-304, 431-435`).

## Model

| member | source | states |
|---|---|---|
| PyText.IsSpace | forwarder_bot_v7.py:204 | the ASCII characters Python's `str.isspace()` accepts: tab through carriage return, 0x1C-0x1F and space |
| PyText.Strip | forwarder_bot_v7.py:204 | `str.strip()` on ASCII: not longer than the input, no whitespace at either end |
| PyText.StripTrims | forwarder_bot_v7.py:204 | the strip of s is a stretch of s with only whitespace before and after it |
| PyText.StripUnique | forwarder_bot_v7.py:204 | any stretch of s with only whitespace around it and none at its own ends is the strip of s, so strip removes all the surrounding whitespace and nothing else |
| PyText.StripLeft | forwarder_bot_v7.py:204 | the result is a suffix of the input, every dropped character is whitespace, and the result does not start with whitespace |
| PyText.StripRight | forwarder_bot_v7.py:204 | the result is a prefix of the input, every dropped character is whitespace, and the result does not end with whitespace |
| PyText.StripFixed | forwarder_bot_v6.py:240 | a string without whitespace at either end is its own strip |
| PyText.StripIdempotent | forwarder_bot_v7.py:204 | stripping twice is stripping once |
| PyText.IsIntSpace | forwarder_bot_v7.py:360 | the ASCII characters `int()` skips around a number: tab through carriage return and space, without 0x1C-0x1F |
| PyText.IntStripLeft | forwarder_bot_v7.py:360 | the result is a suffix of the input, every dropped character is `int()` whitespace, and the result does not start with one |
| PyText.IntStripRight | forwarder_bot_v7.py:360 | the result is a prefix of the input, every dropped character is `int()` whitespace, and the result does not end with one |
| PyText.IntStrip | forwarder_bot_v7.py:360 | what `int()` reads: not longer than the input, no `int()` whitespace at either end; IntStripTrims and IntStripUnique pin it down |
| PyText.IntStripTrims | forwarder_bot_v7.py:360 | what `int()` reads is a stretch of s with only `int()` whitespace before and after it |
| PyText.IntStripUnique | forwarder_bot_v7.py:360 | any stretch of s with only `int()` whitespace around it and none at its own ends is what `int()` reads, so `int()` skips all that whitespace and nothing else |
| PyText.ParseIntPadded | forwarder_bot_v7.py:501 | `int()` of `str(n)` with any tab, newline, vertical tab, form feed, carriage return or space before and after it is n |
| PyText.IntStripFixed | forwarder_bot_v7.py:360 | a string without `int()` whitespace at either end is read whole |
| PyText.NatDigits | forwarder_bot_v6.py:240 | the decimal digits of a natural number: non-empty, digits only, no leading zero except for 0 itself |
| PyText.Str | forwarder_bot_v6.py:240 | `str(int)`: non-empty, no surrounding whitespace, only '-' and digits (so never ':') |
| PyText.NatDigitsRoundTrip | forwarder_bot_v6.py:240 | reading the digits of n gives n back |
| PyText.SignedNegative | forwarder_bot_v7.py:360 | a minus sign followed by the digits of n reads as -n |
| PyText.SignedNonNegative | forwarder_bot_v7.py:360 | the digits of n alone read as n |
| PyText.ParseDigits | forwarder_bot_v7.py:204 | the value of a non-empty run of ASCII digits, most significant first; None for an empty run or any other character |
| PyText.ParseSigned | forwarder_bot_v7.py:204 | an optional '+' or '-' followed by a digit run; a '-' negates the value |
| PyText.ParseInt | forwarder_bot_v7.py:360 | `int(s)`: the text without the whitespace `int()` skips, read as a signed digit run; None where Python raises ValueError; used for the answer and for the ids at forwarder_bot_v7.py:204, 360 and 501 and forwarder_bot_v6.py:387 |
| PyText.SignedStr | forwarder_bot_v7.py:360 | `str(n)` read as a signed digit run is n |
| PyText.ParseIntStripped | forwarder_bot_v7.py:204 | after `str.strip()` `int()` skips nothing more: the parse of a stripped text is its signed-digit reading |
| PyText.SignedNeedsDigit | forwarder_bot_v7.py:360 | text that starts with neither a sign nor a digit does not read as a number |
| PyText.StripDropsSeparator | forwarder_bot_v7.py:204 | a separator 0x1C-0x1F followed by a digit strips to that digit, so "\x1c5".strip() is "5" |
| PyText.IntKeepsSeparator | forwarder_bot_v7.py:501 | `int()` of a separator 0x1C-0x1F followed by a digit raises, so `int("\x1c5")` raises |
| PyText.ParseIntStr | forwarder_bot_v7.py:360 | `int(str(n)) == n` for every integer n |
| PyText.StrictMatchParses | forwarder_bot_v6.py:240 | text whose strip is `str(n)` gives n as `int(text.strip())` |
| PyText.DigitsWithLeadingZero | forwarder_bot_v7.py:204 | the digit run "042" reads as 42 |
| PyText.StrFortyTwo | forwarder_bot_v7.py:204 | `str(42)` is "42" |
| PyText.LeadingZeroParses | forwarder_bot_v7.py:204 | "042" parses to 42 although it is not `str(42)` |
| PyText.IndexOf | forwarder_bot_v7.py:500 | the first position of the separator |
| PyText.Split | forwarder_bot_v7.py:500 | `str.split(sep)`: at least one field, exactly one iff sep is absent, no field contains sep, and joining the fields with sep gives the input back |
| PyText.IndexOfAfter | forwarder_bot_v7.py:500 | the first separator of a + sep + b is right after a when a has none |
| PyText.SplitCons | forwarder_bot_v7.py:500 | splitting a + sep + b, where a has no separator, gives a as the first field and the split of b after it |
| PyText.SplitJoin | forwarder_bot_v7.py:500 | splitting a join of separator-free fields gives the fields back |
| PyText.Contains | forwarder_bot_v6.py:385 | `p in s` holds iff p occurs at some position of s |
| PyText.ContainsChar | forwarder_bot_v6.py:385-386 | each character of a contained run occurs in s, so data holding "CMD_BAN_TOGGLE:" splits into at least two fields |
| ForwarderV7Spec.Initial | forwarder_bot_v7.py:44-60 | empty collections and zero counters satisfy the invariant |
| ForwarderV7Spec.AddToWhitelist | forwarder_bot_v7.py:133-141 | u ends up whitelisted and in neither blacklist nor pending; verified_users rises by exactly one (even for a user already whitelisted); nobody else's membership, the owner and the routing table are unchanged; the invariant is kept |
| ForwarderV7Spec.AddToBlacklist | forwarder_bot_v7.py:143-149 | u ends up only in the blacklist; no counter changes; nobody else's membership changes; the invariant is kept |
| ForwarderV7Spec.RemoveFromBlacklist | forwarder_bot_v7.py:151-153 | exactly u leaves the blacklist; whitelist, pending, counters and routing are unchanged |
| ForwarderV7Spec.IsAllowed | forwarder_bot_v7.py:154-156 | true exactly for the owner and whitelisted users |
| ForwarderV7Spec.IsBlocked | forwarder_bot_v7.py:158-160 | true exactly for blacklisted users |
| ForwarderV7Spec.UnbannedIsUnknown | forwarder_bot_v7.py:151-153 | an unbanned user is in no collection, so the next message draws a new challenge |
| ForwarderV7Spec.GenerateChallenge | forwarder_bot_v7.py:171-175 | the question's addends are the draws and the expected answer is their sum, in [11, 59] |
| ForwarderV7Spec.StartVerification | forwarder_bot_v7.py:178-182 | u gets the challenge (a + b, 0 attempts); whitelist, blacklist, other users, routing and counters are unchanged; invariant kept for a user in neither list |
| ForwarderV7Spec.CountWrongAnswer | forwarder_bot_v7.py:215-216 | u's attempts rise by one with the expected answer kept; all else unchanged |
| ForwarderV7Spec.BanAfterFailure | forwarder_bot_v7.py:219-226 | u is blacklisted with no challenge; one more blocked attempt is counted exactly when the failure notice was sent; other users are unchanged; the invariant is kept |
| ForwarderV7Spec.AnswerMatches | forwarder_bot_v7.py:204 | the answer is right when the stripped text reads as the stored sum |
| ForwarderV7Spec.AnswerIsIntOfStrip | forwarder_bot_v7.py:204 | AnswerMatches holds iff `int(text.strip())` equals the stored sum |
| ForwarderV7Spec.AnswerIgnoresStrip | forwarder_bot_v7.py:204 | stripping the answer before `check_answer`, which strips it again, decides the same |
| ForwarderV7Spec.CheckAnswer | forwarder_bot_v7.py:192-235 | NotPending iff u has no challenge, and then no change; Correct iff the text parses to the stored answer, and then u is whitelisted; Exhausted iff the answer is wrong (unparsable included) on the third attempt, and then u is banned, with the blocked attempt counted only if the notice was sent; Incorrect iff the answer is wrong before the third attempt, and then one more attempt with remaining = 3 - attempts > 0; the invariant is kept and counters never fall |
| ForwarderV7Spec.HasText | forwarder_bot_v7.py:253-254 | Python truthiness of `message.text`: present and not empty |
| ForwarderV7Spec.RequireAuth | forwarder_bot_v7.py:238-259 | the five outcomes, each iff its condition, in the code's order: blacklist (owner included), then owner/whitelist, then pending with text, then pending without text, then a new challenge; "Blocked", "Pass" and "Ignored" leave the store unchanged |
| ForwarderV7Spec.RequireAuthDelegates | forwarder_bot_v7.py:250-259 | a graded update is exactly check_answer's effect and grade; an issued challenge is exactly start_verification's effect |
| ForwarderV7Spec.RequireAuthEffects | forwarder_bot_v7.py:238-259 | the gate changes only the sender's membership, never the owner or the routing table, never lowers a counter, and keeps the invariant |
| ForwarderV7Spec.Forward | forwarder_bot_v7.py:413-466 | the owner's messages change nothing; the routing entry (relayed id -> sender) is recorded iff header and forward succeed; Delivered iff the panel also succeeds, and SendFailed in every other non-owner case; only on Delivered total_messages rises by one; memberships untouched |
| ForwarderV7Spec.ForwardMessageHandler | forwarder_bot_v7.py:412-466 | the body runs iff the sender is not blacklisted and is the owner or whitelisted; otherwise the gate's own effect; the invariant is kept and no counter falls |
| ForwarderV7Spec.Reply | forwarder_bot_v7.py:468-489 | non-owner: nothing; a missing or falsy (0) lookup: "no record" and no change; otherwise the reply goes to the recorded sender, and total_replies rises by one iff the copy succeeds |
| ForwarderV7Spec.ClearCommand | forwarder_bot_v7.py:403-409 | owner: the routing table is emptied, nothing else changes, and its former size is reported; non-owner: nothing |
| ForwarderV7Spec.UnbanCommand | forwarder_bot_v7.py:352-367 | the state changes iff the caller is the owner and the first argument parses to a blacklisted id, and then only that id leaves the blacklist; not-owner iff the caller is not the owner, usage iff the owner gave no argument, invalid iff the first argument does not parse, and not-blacklisted carries the parsed id |
| ForwarderV7Spec.MessageCount | forwarder_bot_v7.py:529 | the number of routing entries whose sender is the id |
| ForwarderV7Spec.ToggleBan | forwarder_bot_v7.py:503-511 | the id's blacklist membership flips (unban or ban); the invariant is kept |
| ForwarderV7Spec.BanButton | forwarder_bot_v7.py:447 | the ban button's callback data `ban:<id>` |
| ForwarderV7Spec.InfoButton | forwarder_bot_v7.py:448 | the info button's callback data `info:<id>` |
| ForwarderV7Spec.CallbackHandler | forwarder_bot_v7.py:492-533 | a failed acknowledgement or a non-owner: nothing, and CallbackNotOwner iff acknowledged and not the owner; otherwise Malformed iff the data is not two ':'-fields with an integer second field; BanToggled iff the first field is "ban", InfoShown iff it is "info", NoAction iff it is neither, the first two for the id parsed from the second field; a toggle flips that id's ban and reports the new state; the info button reports whitelist and blacklist membership and the id's routing-entry count; everything but a toggle changes nothing |
| ForwarderV7Spec.ButtonsDecode | forwarder_bot_v7.py:447-448 | the two buttons' callback data split back into action and id |
| ForwarderV7Spec.PaddedBanDecodes | forwarder_bot_v7.py:500-501 | "ban: " + str(u) splits into "ban" and " " + str(u), which `int()` reads as u |
| ForwarderV7Spec.PaddedBanToggles | forwarder_bot_v7.py:500-511 | the owner's callback "ban: " + str(u) toggles exactly u, as the button without the space does |
| ForwarderV7Spec.BanButtonToggles | forwarder_bot_v7.py:500-511 | the owner pressing u's ban button toggles exactly u |
| ForwarderV7Spec.InfoButtonShows | forwarder_bot_v7.py:500-533 | the owner pressing u's info button is shown u's whitelist and blacklist membership and routing-entry count, and nothing changes |
| ForwarderV7Spec.ToggleBanTwice | forwarder_bot_v7.py:503-511 | two toggles restore the blacklist, and restore the whole store iff u was neither whitelisted nor pending |
| ForwarderV7Spec.MessageCountBound | forwarder_bot_v7.py:529 | a user's message count never exceeds the routing table's size |
| ForwarderV7Spec.MessageCountRecord | forwarder_bot_v7.py:441 | recording a new relayed id for u adds one to u's count and leaves everyone else's |
| ForwarderV7Spec.ClearIdempotent | forwarder_bot_v7.py:404-409 | a second clear changes nothing and reports 0 |
| ForwarderV7Spec.ForwardThenReply | forwarder_bot_v7.py:441-483 | a delivered message's reply reaches its sender |
| ForwarderV7Spec.WrongAnswerCounted | forwarder_bot_v7.py:214-235 | a pending user's text that does not parse to the answer, before the last try, is graded with 3 - attempts tries left and the attempt counted |
| ForwarderV7Spec.WrongAnswerBans | forwarder_bot_v7.py:214-226 | a wrong answer on the last try is graded Exhausted and bans the user, counting the blocked attempt if the notice was sent |
| ForwarderV7Spec.CorrectAnswerWhitelists | forwarder_bot_v7.py:204-211 | a new user's first message draws a challenge; answering str(a + b) whitelists the user, clears the challenge and counts one verified user |
| ForwarderV7Spec.ThreeWrongAnswersBan | forwarder_bot_v7.py:214-226 | three wrong answers report 2, then 1 remaining, then ban the user, with one blocked attempt counted if the notice was sent; every later update from the user is dropped unchanged |
| ForwarderV7.DataManager.constructor | forwarder_bot_v7.py:44-60 | the object starts as the initial store |
| ForwarderV7.DataManager.AddToWhitelist | forwarder_bot_v7.py:133-141 | updates the fields exactly as ForwarderV7Spec.AddToWhitelist and keeps the invariant |
| ForwarderV7.DataManager.AddToBlacklist | forwarder_bot_v7.py:143-149 | updates the fields exactly as ForwarderV7Spec.AddToBlacklist and keeps the invariant |
| ForwarderV7.DataManager.RemoveFromBlacklist | forwarder_bot_v7.py:151-153 | updates the fields exactly as ForwarderV7Spec.RemoveFromBlacklist and keeps the invariant |
| ForwarderV7.DataManager.IsAllowed | forwarder_bot_v7.py:154-156 | the object's is_allowed, as the spec predicate |
| ForwarderV7.DataManager.IsBlocked | forwarder_bot_v7.py:158-160 | the object's is_blocked, as the spec predicate |
| ForwarderV7.StartVerification | forwarder_bot_v7.py:178-182 | stores the new challenge in place, as the spec function |
| ForwarderV7.CheckAnswer | forwarder_bot_v7.py:192-235 | increments attempts in place then bans or reports, as the spec function; returns true exactly when verification has ended; keeps the invariant |
| ForwarderV7.CountFailure | forwarder_bot_v7.py:214-235 | counts the attempt in place, then on the third bans and, if the notice was sent, counts one more blocked attempt; otherwise reports the tries left |
| ForwarderV7.RequireAuth | forwarder_bot_v7.py:238-259 | the wrapper's decision and effect, as the spec function |
| ForwarderV7.Forward | forwarder_bot_v7.py:413-466 | records the routing entry and counts the message, as the spec function |
| ForwarderV7.ForwardMessageHandler | forwarder_bot_v7.py:412-466 | gate then body, as the spec function |
| ForwarderV7.ReplyHandler | forwarder_bot_v7.py:468-489 | lookup with `.get` and the reply counter, as the spec function |
| ForwarderV7.ClearCommand | forwarder_bot_v7.py:403-409 | `user_mapping.clear()` with the prior count, as the spec function |
| ForwarderV7.UnbanCommand | forwarder_bot_v7.py:352-367 | as the spec function |
| ForwarderV7.BroadcastCommand | forwarder_bot_v7.py:369-401 | non-owner: nothing; no arguments: usage with the whitelist size; failed status message: nothing sent; otherwise success = reachable whitelisted users, failed = unreachable ones, success + failed = whitelist size; no state changes |
| ForwarderV7.TallyStep | forwarder_bot_v7.py:385-393 | one more recipient adds one to exactly one tally: success if reachable, failed otherwise |
| ForwarderV7.SplitCard | forwarder_bot_v7.py:385-393 | the reachable and the unreachable recipients together are the whole whitelist |
| ForwarderV7.CallbackHandler | forwarder_bot_v7.py:492-533 | acknowledge, then split, parse and toggle or report in place, as the spec function; keeps the invariant |
| ForwarderV6Spec.Initial | forwarder_bot_v6.py:16 | the admitted list starts as the two hard-wired ids and every other global is empty; this satisfies the invariant |
| ForwarderV6Spec.Get | forwarder_bot_v6.py:248 | `dict.get(k, d)`: the entry for k, or d when there is none |
| ForwarderV6Spec.HasText | forwarder_bot_v6.py:240 | Python truthiness of the message text: present and not empty |
| ForwarderV6Spec.AnswerCorrect | forwarder_bot_v6.py:240 | the text is present, not empty, and strips to exactly `str(answer)` |
| ForwarderV6Spec.Admit | forwarder_bot_v6.py:242-245 | u is appended to the admitted list and loses both quiz records; the invariant (including "nobody admitted twice") is kept |
| ForwarderV6Spec.Expel | forwarder_bot_v6.py:255-257 | u joins the quiz blacklist and loses both quiz records; the invariant is kept |
| ForwarderV6Spec.Grading | forwarder_bot_v6.py:236-276 | Correct iff the stripped text equals str(answer) (absent or empty text is wrong); Exhausted iff wrong and the mistake count (default 0) plus one reaches 3; otherwise the count is stored and remains = 3 - count > 0; the invariant is kept |
| ForwarderV6Spec.Examine | forwarder_bot_v6.py:279-282 | the expected answer a + b is in [11, 59] and the mistake count is 0; invariant kept for a non-owner not admitted nor blacklisted |
| ForwarderV6Spec.Quiz | forwarder_bot_v6.py:221-297 | four outcomes, each iff its condition, in the code's order: quiz blacklist, then owner/admitted, then graded, then a new question; the firewall's ban set and routing are untouched; the invariant is kept |
| ForwarderV6Spec.Firewall | forwarder_bot_v6.py:347-357 | the ban set is checked first, the owner included; otherwise exactly the quiz layer; the handler runs iff in neither blacklist and owner or admitted |
| ForwarderV6Spec.SyncBanStorage | forwarder_bot_v6.py:316-336 | Add inserts only a non-zero id, Remove deletes the id, and no other id changes |
| ForwarderV6Spec.ToggleRealm | forwarder_bot_v6.py:389-396 | the id's ban flips, except that 0 is never added; others unchanged |
| ForwarderV6Spec.ToggleButton | forwarder_bot_v6.py:362 | the control panel's callback data `CMD_BAN_TOGGLE:<id>` |
| ForwarderV6Spec.AdminPanelCallback | forwarder_bot_v6.py:379-406 | a failed acknowledgement changes nothing; otherwise data without "CMD_BAN_TOGGLE:" changes nothing; with it, the second ':'-field is parsed, an unparsable one changes nothing, and a parsed id is toggled, iff parsed, with only the ban set changing; whoever pressed it |
| ForwarderV6Spec.Forward | forwarder_bot_v6.py:135-165 | the owner's messages change nothing; the routing entry is recorded iff header and forward succeed; no counter |
| ForwarderV6Spec.ForwardMessageHandler | forwarder_bot_v6.py:431-435 | the body runs iff the sender passes both wrappers; otherwise the wrappers' own effect; the invariant is kept |
| ForwarderV6Spec.Reply | forwarder_bot_v6.py:167-189 | a missing or falsy lookup reports "no record"; otherwise the recorded sender is the target; nothing changes |
| ForwarderV6Spec.ReplyHandler | forwarder_bot_v6.py:304 | the reply body runs iff the caller passes both wrappers |
| ForwarderV6Spec.Clear | forwarder_bot_v6.py:120-131 | the owner empties the routing table and nothing else; anyone else changes nothing |
| ForwarderV6Spec.ClearCommand | forwarder_bot_v6.py:302 | behind both wrappers: an admitted non-owner passes and is ignored; only the owner clears |
| ForwarderV6Spec.ToggleRealmTwice | forwarder_bot_v6.py:389-396 | with 0 not banned, two toggles restore the ban set |
| ForwarderV6Spec.CallbackTwice | forwarder_bot_v6.py:379-396 | the same button data twice, both presses acknowledged, restores the whole state |
| ForwarderV6Spec.ToggleButtonToggles | forwarder_bot_v6.py:362-365 | the panel's button for u decodes to u and toggles u |
| ForwarderV6Spec.PaddedToggleDecodes | forwarder_bot_v6.py:385-387 | "CMD_BAN_TOGGLE: " + str(u) contains the prefix, splits into the command and " " + str(u), and `int()` reads that as u |
| ForwarderV6Spec.PaddedToggleToggles | forwarder_bot_v6.py:385-396 | the callback "CMD_BAN_TOGGLE: " + str(u) toggles exactly u |
| ForwarderV6Spec.OwnerCanBeFirewalled | forwarder_bot_v6.py:385-396 | pressing the owner's button bans the owner, whose updates the firewall then drops |
| ForwarderV6Spec.SyncAddRemove | forwarder_bot_v6.py:327-331 | Add is idempotent; Remove undoes Add on an id that was not banned |
| ForwarderV6Spec.CorrectAnswerAdmits | forwarder_bot_v6.py:240-245 | a new user answering str(a + b) is admitted with no quiz records and then passes the quiz |
| ForwarderV6Spec.ThreeMistakesExpel | forwarder_bot_v6.py:247-257 | three wrong updates, text-less ones included, report 2, 1, then expel; later updates are dropped unchanged |
| ForwarderV6Spec.ForwardThenReply | forwarder_bot_v6.py:156-179 | a delivered message's reply reaches its (non-zero) sender |
| ForwarderV6Spec.ClearIdempotent | forwarder_bot_v6.py:126 | a second clear changes nothing |
| ForwarderV6.Globals.constructor | forwarder_bot_v6.py:16 | the globals start as the initial state |
| ForwarderV6.SyncBanStorage | forwarder_bot_v6.py:327-331 | updates the ban set in place, as the spec function |
| ForwarderV6.GradeAnswer | forwarder_bot_v6.py:236-276 | appends, deletes and counts in place, as the spec's grading |
| ForwarderV6.CountMistake | forwarder_bot_v6.py:247-276 | counts the mistake in place, then expels on the third or reports the tries left |
| ForwarderV6.QuizGen | forwarder_bot_v6.py:221-297 | as the spec's quiz layer |
| ForwarderV6.SecurityProxy | forwarder_bot_v6.py:347-357 | as the spec's firewall |
| ForwarderV6.AdminPanelCallback | forwarder_bot_v6.py:379-396 | as the spec function; keeps the invariant |
| ForwarderV6.ForwardMessageHandler | forwarder_bot_v6.py:135-165 | as the spec function |
| ForwarderV6.ReplyHandler | forwarder_bot_v6.py:167-189 | as the spec function |
| ForwarderV6.ClearCommand | forwarder_bot_v6.py:120-131 | as the spec function |
| VersionComparison.V6AnswerPassesV7 | forwarder_bot_v6.py:240 | every answer the v6 string test accepts, the v7 `int()` test accepts as well |
| VersionComparison.LeadingZeroDiffers | forwarder_bot_v7.py:204 | "042" answers 42 for v7 but not for v6 |
| VersionComparison.NoTextUpdate | forwarder_bot_v7.py:252-256 | an update without text from a user under examination: v7 ignores it, v6 grades it as a wrong answer |

## Left out
- Telegram transport: the calls listed above become outcome parameters; every other send and message edit comes after the state change it reports, or is inside a `try` that swallows its error, so it is left out. All HTML and Markdown texts, the confirmation replies, and the v6 control panel sent after each wrapped call are display only. A failed confirmation reply after a relay changes no modelled state.
- Persistence: JSON loading and saving, `load_all`, `load_mapping`, `os.remove`, and the `'L'` mode of `sync_ban_storage`. Because the load is left out, a ban file holding the id 0 is not modelled. The invariant `0 !in forbiddenRealm` holds for the in-memory state the model starts from.
- Start-up: config loading and `exit`, handler registration, the `post_init` hooks and the `start_time` timestamp. The model takes the configured owner id as the constructor's parameter. The routing of an update to a handler by Telegram's filters is not modelled; the chat filter on the reply handler is the reason reply callers are the owner in practice.
- Display-only commands: `/start`, `/help`, `/stats` and `/banlist`, including its first-20 truncation, and the text of the info alert. `/start` and `/help` pass through the same gate as `ForwardMessageHandler`, and their bodies change no state.
- Python `int()` and `str.strip()` beyond ASCII: Unicode digits and whitespace, and underscores between digits. These inputs are treated as unparsable or as not whitespace.
- ParseInt: does not model the 4300-digit limit that recent CPython versions put on `int()` of a string. A longer digit run is parsed to its value, where such a Python raises ValueError. For `/unban` the model then reports the id as not blacklisted instead of "Invalid user ID".
- Logging, exception handlers that only log, and concurrency. The bot handles one update at a time on one event loop.
- ForwarderV7.BroadcastCommand: the model reports the tallies even when the final status edit fails. The message text is not modelled.
