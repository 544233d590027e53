/**
 * forwarder_bot_v7.py as an object: DataManager keeps the bot's in-memory
 * state in fields that its methods update in place, and each handler is a
 * method on the one global DataManager.  Every method is proved to move the
 * object exactly as the corresponding function of ForwarderV7Spec moves a
 * Store, so the properties proved there hold of these methods.
 */
module ForwarderV7 {
  import opened Wrappers
  import opened PyText
  import S = ForwarderV7Spec

  class DataManager {
    /** The owner's id, read from the configuration before any update. */
    const ownerId: int
    /** Relayed message id -> sender id. */
    var userMapping: map<int, int>
    var whitelist: set<int>
    var blacklist: set<int>
    var pendingVerify: map<int, S.Challenge>
    var totalMessages: nat
    var totalReplies: nat
    var blockedAttempts: nat
    var verifiedUsers: nat

    /** The object's state as a Store value. */
    function Model(): S.Store
      reads this
    {
      S.Store(ownerId, whitelist, blacklist, pendingVerify, userMapping,
              S.Stats(totalMessages, totalReplies, blockedAttempts, verifiedUsers))
    }

    ghost predicate Valid()
      reads this
    {
      S.Inv(Model())
    }

    /** The manager once the configuration has supplied the owner and
        nothing has been loaded. */
    constructor (ownerId: int)
      ensures Model() == S.Initial(ownerId)
      ensures Valid()
    {
      this.ownerId := ownerId;
      userMapping := map[];
      whitelist := {};
      blacklist := {};
      pendingVerify := map[];
      totalMessages := 0;
      totalReplies := 0;
      blockedAttempts := 0;
      verifiedUsers := 0;
    }

    method AddToWhitelist(u: int)
      modifies this
      ensures Model() == S.AddToWhitelist(old(Model()), u)
      ensures old(Valid()) ==> Valid()
    {
      whitelist := whitelist + {u};
      blacklist := blacklist - {u};
      pendingVerify := pendingVerify - {u};
      verifiedUsers := verifiedUsers + 1;
    }

    method AddToBlacklist(u: int)
      modifies this
      ensures Model() == S.AddToBlacklist(old(Model()), u)
      ensures old(Valid()) ==> Valid()
    {
      blacklist := blacklist + {u};
      whitelist := whitelist - {u};
      pendingVerify := pendingVerify - {u};
    }

    method RemoveFromBlacklist(u: int)
      modifies this
      ensures Model() == S.RemoveFromBlacklist(old(Model()), u)
      ensures old(Valid()) ==> Valid()
    {
      blacklist := blacklist - {u};
    }

    predicate IsAllowed(u: int)
      reads this
    {
      S.IsAllowed(Model(), u)
    }

    predicate IsBlocked(u: int)
      reads this
    {
      S.IsBlocked(Model(), u)
    }
  }

  // ---------------------------------------------------------------------
  // VerificationSystem

  /** start_verification with the random draws a and b supplied. */
  method StartVerification(dm: DataManager, u: int, a: int, b: int)
    requires S.ChallengeDraw(a, b)
    modifies dm
    ensures dm.Model() == S.StartVerification(old(dm.Model()), u, a, b)
  {
    var (_, _, answer) := S.GenerateChallenge(a, b);
    dm.pendingVerify := dm.pendingVerify[u := S.Challenge(answer, 0)];
  }

  /** check_answer: done is the Python return value (true once the
      verification has ended either way), grade what the user is told;
      noticeSent is the transport's answer to the failure notice. */
  method CheckAnswer(dm: DataManager, u: int, input: string, noticeSent: bool) returns (done: bool, grade: S.Grade)
    modifies dm
    ensures dm.Model() == S.CheckAnswer(old(dm.Model()), u, input, noticeSent).store
    ensures grade == S.CheckAnswer(old(dm.Model()), u, input, noticeSent).out
    ensures done <==> !grade.Incorrect?
    ensures old(dm.Valid()) ==> dm.Valid()
  {
    if u !in dm.pendingVerify {
      return true, S.NotPending;
    }
    var verifyData := dm.pendingVerify[u];
    var correct := verifyData.answer;
    S.AnswerIsIntOfStrip(input, correct);
    if ParseInt(Strip(input)) == Some(correct) {
      dm.AddToWhitelist(u);
      return true, S.Correct;
    }
    done, grade := CountFailure(dm, u, noticeSent);
  }

  /** The wrong-answer half of check_answer: the attempt count in the
      pending entry goes up in place, then the user is either banned or
      told how many tries remain.  The blocked-attempt counter goes up
      after the failure notice, so only when noticeSent. */
  method CountFailure(dm: DataManager, u: int, noticeSent: bool) returns (done: bool, grade: S.Grade)
    requires u in dm.pendingVerify
    modifies dm
    ensures var s := old(dm.Model());
      if s.pending[u].attempts + 1 >= S.MaxFailLimit
      then dm.Model() == S.BanAfterFailure(s, u, noticeSent) && grade == S.Exhausted
      else (dm.Model() == S.CountWrongAnswer(s, u)
            && grade == S.Incorrect(S.MaxFailLimit - (s.pending[u].attempts + 1)))
    ensures done <==> !grade.Incorrect?
  {
    ghost var pending := dm.pendingVerify;
    var verifyData := dm.pendingVerify[u];
    verifyData := verifyData.(attempts := verifyData.attempts + 1);
    dm.pendingVerify := dm.pendingVerify[u := verifyData];
    var remaining := S.MaxFailLimit - verifyData.attempts;
    if remaining <= 0 {
      dm.AddToBlacklist(u);
      assert dm.pendingVerify == pending - {u};
      if noticeSent {
        dm.blockedAttempts := dm.blockedAttempts + 1;
      }
      return true, S.Exhausted;
    }
    return false, S.Incorrect(remaining);
  }

  // ---------------------------------------------------------------------
  // require_auth and the handlers it guards

  /** The require_auth wrapper's decision for an update from u carrying
      text (None for an update without a text message). */
  method RequireAuth(dm: DataManager, u: int, text: Option<string>, a: int, b: int, noticeSent: bool)
    returns (c: S.Classify)
    requires S.ChallengeDraw(a, b)
    modifies dm
    ensures dm.Model() == S.RequireAuth(old(dm.Model()), u, text, a, b, noticeSent).store
    ensures c == S.RequireAuth(old(dm.Model()), u, text, a, b, noticeSent).out
    ensures old(dm.Valid()) ==> dm.Valid()
  {
    if dm.IsBlocked(u) {
      return S.Blocked;
    }
    if dm.IsAllowed(u) {
      return S.Pass;
    }
    if u in dm.pendingVerify {
      if text.Some? && text.value != "" {
        var _, g := CheckAnswer(dm, u, text.value, noticeSent);
        return S.Graded(g);
      }
      return S.Ignored;
    }
    StartVerification(dm, u, a, b);
    return S.Issued(a, b);
  }

  /** The body of forward_message_handler.  headerSent, forwardedId and
      panelSent are the transport's answers to the three sends (forwardedId
      is the relayed message's id, None when forwarding failed). */
  method Forward(dm: DataManager, u: int, isReply: bool,
                 headerSent: bool, forwardedId: Option<int>, panelSent: bool) returns (r: S.ForwardResult)
    modifies dm
    ensures dm.Model() == S.Forward(old(dm.Model()), u, isReply, headerSent, forwardedId, panelSent).store
    ensures r == S.Forward(old(dm.Model()), u, isReply, headerSent, forwardedId, panelSent).out
  {
    if u == dm.ownerId {
      return if isReply then S.OwnerIgnored else S.OwnerHint;
    }
    if !headerSent || forwardedId.None? {
      return S.SendFailed;
    }
    dm.userMapping := dm.userMapping[forwardedId.value := u];
    if !panelSent {
      return S.SendFailed;
    }
    dm.totalMessages := dm.totalMessages + 1;
    return S.Delivered(forwardedId.value);
  }

  /** forward_message_handler as registered, behind require_auth. */
  method ForwardMessageHandler(dm: DataManager, u: int, text: Option<string>, isReply: bool,
                               a: int, b: int, noticeSent: bool,
                               headerSent: bool, forwardedId: Option<int>, panelSent: bool)
    returns (r: S.Forwarding)
    requires S.ChallengeDraw(a, b)
    modifies dm
    ensures dm.Model() ==
      S.ForwardMessageHandler(old(dm.Model()), u, text, isReply, a, b, noticeSent,
                              headerSent, forwardedId, panelSent).store
    ensures r ==
      S.ForwardMessageHandler(old(dm.Model()), u, text, isReply, a, b, noticeSent,
                              headerSent, forwardedId, panelSent).out
    ensures old(dm.Valid()) ==> dm.Valid()
  {
    var gate := RequireAuth(dm, u, text, a, b, noticeSent);
    if gate != S.Pass {
      return S.Stopped(gate);
    }
    var f := Forward(dm, u, isReply, headerSent, forwardedId, panelSent);
    return S.Ran(f);
  }

  /** reply_handler: copy is the transport's answer to copying the owner's
      message to the looked-up user. */
  method ReplyHandler(dm: DataManager, caller: int, repliedId: int, copy: S.CopyOutcome)
    returns (r: S.ReplyResult)
    modifies dm
    ensures dm.Model() == S.Reply(old(dm.Model()), caller, repliedId, copy).store
    ensures r == S.Reply(old(dm.Model()), caller, repliedId, copy).out
    ensures old(dm.Valid()) ==> dm.Valid()
  {
    if caller != dm.ownerId {
      return S.ReplyNotOwner;
    }
    var targetUser := if repliedId in dm.userMapping then dm.userMapping[repliedId] else 0;
    if targetUser == 0 {
      return S.NoRecord;
    }
    match copy
    case Copied =>
      dm.totalReplies := dm.totalReplies + 1;
      return S.Replied(targetUser);
    case CopyFailed(blocked) =>
      return S.ReplyFailed(targetUser, blocked);
  }

  // ---------------------------------------------------------------------
  // Operator commands

  method ClearCommand(dm: DataManager, caller: int) returns (r: S.ClearResult)
    modifies dm
    ensures dm.Model() == S.ClearCommand(old(dm.Model()), caller).store
    ensures r == S.ClearCommand(old(dm.Model()), caller).out
    ensures old(dm.Valid()) ==> dm.Valid()
  {
    if caller != dm.ownerId {
      return S.ClearNotOwner;
    }
    var count := |dm.userMapping|;
    dm.userMapping := map[];
    return S.Cleared(count);
  }

  /** unban_command; args are the command's whitespace-separated arguments. */
  method UnbanCommand(dm: DataManager, caller: int, args: seq<string>) returns (r: S.UnbanResult)
    modifies dm
    ensures dm.Model() == S.UnbanCommand(old(dm.Model()), caller, args).store
    ensures r == S.UnbanCommand(old(dm.Model()), caller, args).out
    ensures old(dm.Valid()) ==> dm.Valid()
  {
    if caller != dm.ownerId {
      return S.UnbanNotOwner;
    }
    if |args| == 0 {
      return S.UnbanUsage;
    }
    var parsed := ParseInt(args[0]);
    if parsed.None? {
      return S.InvalidId;
    }
    var userId := parsed.value;
    if userId in dm.blacklist {
      dm.RemoveFromBlacklist(userId);
      return S.Unbanned(userId);
    }
    return S.NotBlacklisted(userId);
  }

  /** broadcast_command.  statusSent is the transport's answer to the
      "sending..." status message (when it fails nothing is sent), and a
      send to user v succeeds exactly when v is in reachable.  The loop
      visits each whitelisted user once and tallies the sends; the
      tallies are the reachable and the unreachable whitelisted users, and
      together they are the whole whitelist.  Nothing in dm changes. */
  method BroadcastCommand(dm: DataManager, caller: int, args: seq<string>,
                          statusSent: bool, reachable: set<int>) returns (r: S.BroadcastResult)
    ensures r == S.BroadcastNotOwner <==> caller != dm.ownerId
    ensures r.BroadcastUsage? <==> caller == dm.ownerId && |args| == 0
    ensures r.BroadcastUsage? ==> r.recipients == |dm.whitelist|
    ensures r == S.BroadcastAborted <==> caller == dm.ownerId && |args| > 0 && !statusSent
    ensures r.BroadcastDone? ==>
      && r.success == |dm.whitelist * reachable|
      && r.failed == |dm.whitelist - reachable|
      && r.success + r.failed == |dm.whitelist|
  {
    if caller != dm.ownerId {
      return S.BroadcastNotOwner;
    }
    if |args| == 0 {
      return S.BroadcastUsage(|dm.whitelist|);
    }
    if !statusSent {
      return S.BroadcastAborted;
    }
    var success, failed := 0, 0;
    var rest := dm.whitelist;
    ghost var sent: set<int> := {};
    while rest != {}
      invariant sent !! rest && sent + rest == dm.whitelist
      invariant success == |sent * reachable|
      invariant failed == |sent - reachable|
      decreases |rest|
    {
      // rest is not empty, so some member can be picked
      if forall v :: v !in rest {
        assert false;
      }
      var userId :| userId in rest;
      TallyStep(sent, userId, reachable);
      if userId in reachable {
        success := success + 1;
      } else {
        failed := failed + 1;
      }
      sent := sent + {userId};
      rest := rest - {userId};
    }
    assert sent == dm.whitelist;
    SplitCard(dm.whitelist, reachable);
    return S.BroadcastDone(success, failed);
  }

  /** Adding one more recipient x to the users already sent to adds one
      to exactly one of the two tallies. */
  lemma TallyStep(sent: set<int>, x: int, reachable: set<int>)
    requires x !in sent
    ensures |(sent + {x}) * reachable| == |sent * reachable| + if x in reachable then 1 else 0
    ensures |(sent + {x}) - reachable| == |sent - reachable| + if x in reachable then 0 else 1
  {
    if x in reachable {
      assert (sent + {x}) * reachable == sent * reachable + {x};
      assert (sent + {x}) - reachable == sent - reachable;
    } else {
      assert (sent + {x}) * reachable == sent * reachable;
      assert (sent + {x}) - reachable == (sent - reachable) + {x};
    }
  }

  /** a splits into its members inside and outside b. */
  lemma SplitCard(a: set<int>, b: set<int>)
    ensures |a * b| + |a - b| == |a|
  {
    assert a == (a * b) + (a - b);
    assert (a * b) * (a - b) == {};
  }

  /** callback_handler: data is the pressed button's callback_data and
      answered the transport's answer to acknowledging the query. */
  method CallbackHandler(dm: DataManager, caller: int, data: string, answered: bool)
    returns (r: S.CallbackResult)
    modifies dm
    ensures dm.Model() == S.CallbackHandler(old(dm.Model()), caller, data, answered).store
    ensures r == S.CallbackHandler(old(dm.Model()), caller, data, answered).out
    ensures old(dm.Valid()) ==> dm.Valid()
  {
    if !answered {
      return S.Unanswered;
    }
    if caller != dm.ownerId {
      return S.CallbackNotOwner;
    }
    var fields := Split(data, ':');
    if |fields| != 2 {
      return S.Malformed;
    }
    var parsed := ParseInt(fields[1]);
    if parsed.None? {
      return S.Malformed;
    }
    var action, userId := fields[0], parsed.value;
    if action == "ban" {
      if userId in dm.blacklist {
        dm.RemoveFromBlacklist(userId);
        return S.BanToggled(userId, false);
      }
      dm.AddToBlacklist(userId);
      return S.BanToggled(userId, true);
    } else if action == "info" {
      var msgCount := S.MessageCount(dm.userMapping, userId);
      return S.InfoShown(userId, userId in dm.whitelist, userId in dm.blacklist, msgCount);
    }
    return S.NoAction;
  }
}
