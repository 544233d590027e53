/**
 * forwarder_bot_v6.py as written: its module-level globals are the fields
 * of one object, and each wrapper and handler is a method that updates them
 * in place.  Every method is proved to move the globals exactly as the
 * corresponding function of ForwarderV6Spec moves a State.
 */
module ForwarderV6 {
  import opened Wrappers
  import opened PyText
  import S = ForwarderV6Spec

  /** The module globals the handlers share. */
  class Globals {
    /** OWNER_ID, set by load_config before the bot starts. */
    const ownerId: int
    var userMapping: map<int, int>
    var blackLedger: set<int>
    var examPaper: map<int, int>
    var attemptTracker: map<int, int>
    var accessGrantedList: seq<int>
    var forbiddenRealm: set<int>

    function Model(): S.State
      reads this
    {
      S.State(ownerId, userMapping, blackLedger, examPaper, attemptTracker,
              accessGrantedList, forbiddenRealm)
    }

    ghost predicate Valid()
      reads this
    {
      S.Inv(Model())
    }

    /** The globals after import, before any file is read. */
    constructor (ownerId: int)
      ensures Model() == S.Initial(ownerId)
      ensures Valid()
    {
      this.ownerId := ownerId;
      userMapping := map[];
      blackLedger := {};
      examPaper := map[];
      attemptTracker := map[];
      accessGrantedList := S.InitialGranted;
      forbiddenRealm := {};
    }
  }

  /** sync_ban_storage in modes 'A' and 'R' (the file write is not part
      of this model). */
  method SyncBanStorage(g: Globals, mode: S.SyncMode, uid: int)
    modifies g
    ensures g.Model() == old(g.Model()).(forbiddenRealm := S.SyncBanStorage(old(g.forbiddenRealm), mode, uid))
  {
    if mode == S.Add && uid != 0 {
      g.forbiddenRealm := g.forbiddenRealm + {uid};
    } else if mode == S.Remove && uid in g.forbiddenRealm {
      g.forbiddenRealm := g.forbiddenRealm - {uid};
    }
  }

  /** The judging part of quiz_gen for a user under examination. */
  method GradeAnswer(g: Globals, u: int, inputTxt: Option<string>) returns (grade: S.Grade)
    requires u in g.examPaper
    modifies g
    ensures g.Model() == S.Grading(old(g.Model()), u, inputTxt).state
    ensures grade == S.Grading(old(g.Model()), u, inputTxt).out
    ensures old(g.Valid()) ==> g.Valid()
  {
    ghost var s := g.Model();
    var correctAns := g.examPaper[u];
    if inputTxt.Some? && inputTxt.value != "" && Strip(inputTxt.value) == Str(correctAns) {
      assert S.Grading(s, u, inputTxt) == S.Step(S.Admit(s, u), S.Correct);
      g.accessGrantedList := g.accessGrantedList + [u];
      g.examPaper := g.examPaper - {u};
      if u in g.attemptTracker {
        g.attemptTracker := g.attemptTracker - {u};
      } else {
        assert g.attemptTracker == g.attemptTracker - {u};
      }
      return S.Correct;
    }
    ghost var mistakes := S.Get(s.attemptTracker, u, 0) + 1;
    if mistakes >= S.MaxFailLimit {
      assert S.Grading(s, u, inputTxt) == S.Step(S.Expel(s, u), S.Exhausted);
    } else {
      assert S.Grading(s, u, inputTxt) ==
        S.Step(s.(attemptTracker := s.attemptTracker[u := mistakes]), S.Incorrect(S.MaxFailLimit - mistakes));
    }
    grade := CountMistake(g, u);
  }

  /** The wrong-answer half of quiz_gen's judging: the mistake count goes
      up in place, then the user is either expelled or told how many tries
      remain. */
  method CountMistake(g: Globals, u: int) returns (grade: S.Grade)
    requires u in g.examPaper
    modifies g
    ensures var s := old(g.Model());
      var mistakes := S.Get(s.attemptTracker, u, 0) + 1;
      if mistakes >= S.MaxFailLimit
      then g.Model() == S.Expel(s, u) && grade == S.Exhausted
      else (g.Model() == s.(attemptTracker := s.attemptTracker[u := mistakes])
            && grade == S.Incorrect(S.MaxFailLimit - mistakes))
  {
    var currentMistakes := S.Get(g.attemptTracker, u, 0) + 1;
    ghost var tracker := g.attemptTracker;
    g.attemptTracker := g.attemptTracker[u := currentMistakes];
    var remains := S.MaxFailLimit - currentMistakes;
    if remains <= 0 {
      g.blackLedger := g.blackLedger + {u};
      g.examPaper := g.examPaper - {u};
      g.attemptTracker := g.attemptTracker - {u};
      assert g.attemptTracker == tracker - {u};
      return S.Exhausted;
    }
    return S.Incorrect(remains);
  }

  /** quiz_gen, the challenge layer around each handler; a and b are the
      two random draws. */
  method QuizGen(g: Globals, u: int, inputTxt: Option<string>, a: int, b: int) returns (gate: S.Gate)
    requires S.ChallengeDraw(a, b)
    modifies g
    ensures g.Model() == S.Quiz(old(g.Model()), u, inputTxt, a, b).state
    ensures gate == S.Quiz(old(g.Model()), u, inputTxt, a, b).out
    ensures old(g.Valid()) ==> g.Valid()
  {
    if u in g.blackLedger {
      return S.LedgerDropped;
    }
    if u == g.ownerId || u in g.accessGrantedList {
      return S.Pass;
    }
    if u in g.examPaper {
      var grade := GradeAnswer(g, u, inputTxt);
      return S.Graded(grade);
    }
    g.examPaper := g.examPaper[u := a + b];
    g.attemptTracker := g.attemptTracker[u := 0];
    return S.Issued(a, b);
  }

  /** security_proxy, the firewall around quiz_gen. */
  method SecurityProxy(g: Globals, u: int, inputTxt: Option<string>, a: int, b: int) returns (gate: S.Gate)
    requires S.ChallengeDraw(a, b)
    modifies g
    ensures g.Model() == S.Firewall(old(g.Model()), u, inputTxt, a, b).state
    ensures gate == S.Firewall(old(g.Model()), u, inputTxt, a, b).out
    ensures old(g.Valid()) ==> g.Valid()
  {
    if u in g.forbiddenRealm {
      return S.Firewalled;
    }
    gate := QuizGen(g, u, inputTxt, a, b);
  }

  /** admin_panel_callback: data is the pressed button's callback_data
      and answered the transport's answer to acknowledging the query; who
      pressed the button plays no part. */
  method AdminPanelCallback(g: Globals, rawData: string, answered: bool) returns (r: S.CallbackResult)
    modifies g
    ensures g.Model() == S.AdminPanelCallback(old(g.Model()), rawData, answered).state
    ensures r == S.AdminPanelCallback(old(g.Model()), rawData, answered).out
    ensures old(g.Valid()) ==> g.Valid()
  {
    if !answered {
      return S.Unanswered;
    }
    if !Contains(rawData, "CMD_BAN_TOGGLE:") {
      return S.NotToggle;
    }
    ContainsChar(rawData, "CMD_BAN_TOGGLE:", 14);
    var targetUidStr := Split(rawData, ':')[1];
    var parsed := ParseInt(targetUidStr);
    if parsed.None? {
      return S.BadId;
    }
    var targetUid := parsed.value;
    if targetUid in g.forbiddenRealm {
      SyncBanStorage(g, S.Remove, targetUid);
    } else {
      SyncBanStorage(g, S.Add, targetUid);
    }
    return S.Toggled(targetUid, targetUid in g.forbiddenRealm);
  }

  /** forward_message_handler behind both wrappers; headerSent and
      forwardedId are the transport's answers to the header and the
      forward. */
  method ForwardMessageHandler(g: Globals, u: int, inputTxt: Option<string>, isReply: bool,
                               a: int, b: int, headerSent: bool, forwardedId: Option<int>)
    returns (r: S.Wrapped<S.ForwardResult>)
    requires S.ChallengeDraw(a, b)
    modifies g
    ensures g.Model() ==
      S.ForwardMessageHandler(old(g.Model()), u, inputTxt, isReply, a, b, headerSent, forwardedId).state
    ensures r ==
      S.ForwardMessageHandler(old(g.Model()), u, inputTxt, isReply, a, b, headerSent, forwardedId).out
    ensures old(g.Valid()) ==> g.Valid()
  {
    var gate := SecurityProxy(g, u, inputTxt, a, b);
    if gate != S.Pass {
      return S.Stopped(gate);
    }
    if u == g.ownerId {
      return S.Ran(if isReply then S.OwnerIgnored else S.OwnerHint);
    }
    if !headerSent || forwardedId.None? {
      return S.Ran(S.SendFailed);
    }
    g.userMapping := g.userMapping[forwardedId.value := u];
    return S.Ran(S.Delivered(forwardedId.value));
  }

  /** reply_handler behind both wrappers; copy is the transport's answer
      to copying the reply to the looked-up user. */
  method ReplyHandler(g: Globals, caller: int, inputTxt: Option<string>, a: int, b: int,
                      repliedToId: int, copy: S.CopyOutcome)
    returns (r: S.Wrapped<S.ReplyResult>)
    requires S.ChallengeDraw(a, b)
    modifies g
    ensures g.Model() == S.ReplyHandler(old(g.Model()), caller, inputTxt, a, b, repliedToId, copy).state
    ensures r == S.ReplyHandler(old(g.Model()), caller, inputTxt, a, b, repliedToId, copy).out
    ensures old(g.Valid()) ==> g.Valid()
  {
    var gate := SecurityProxy(g, caller, inputTxt, a, b);
    if gate != S.Pass {
      return S.Stopped(gate);
    }
    var originalUserId := S.Get(g.userMapping, repliedToId, 0);
    if originalUserId == 0 {
      return S.Ran(S.NoRecord);
    }
    match copy
    case Copied =>
      return S.Ran(S.Replied(originalUserId));
    case CopyFailed(blocked) =>
      return S.Ran(S.ReplyFailed(originalUserId, blocked));
  }

  /** clear_command behind both wrappers. */
  method ClearCommand(g: Globals, caller: int, inputTxt: Option<string>, a: int, b: int)
    returns (r: S.Wrapped<S.ClearResult>)
    requires S.ChallengeDraw(a, b)
    modifies g
    ensures g.Model() == S.ClearCommand(old(g.Model()), caller, inputTxt, a, b).state
    ensures r == S.ClearCommand(old(g.Model()), caller, inputTxt, a, b).out
    ensures old(g.Valid()) ==> g.Valid()
  {
    var gate := SecurityProxy(g, caller, inputTxt, a, b);
    if gate != S.Pass {
      return S.Stopped(gate);
    }
    if caller != g.ownerId {
      return S.Ran(S.ClearIgnored);
    }
    g.userMapping := map[];
    return S.Ran(S.Cleared);
  }
}
