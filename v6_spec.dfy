/**
 * The module-level state of forwarder_bot_v6.py as a value, and the effect
 * of each wrapped handler on it as a function.  This version stacks two
 * decorators: the outer firewall drops anyone in the manually kept ban set,
 * the inner quiz layer keeps its own blacklist, a table of expected answers,
 * a table of wrong-answer counts and the list of admitted users.  The
 * imperative module ForwarderV6 is proved to follow these functions.
 */
module ForwarderV6Spec {
  import opened Wrappers
  import opened PyText

  /** Wrong answers a user may give before the quiz layer blacklists them. */
  const MaxFailLimit := 3

  /** The ids hard-wired into the admitted list. */
  const InitialGranted: seq<int> := [12345678, 87654321]

  /** The globals the handlers read and write: the owner, the routing table
      (relayed message id -> sender), the quiz blacklist, the expected
      answers, the wrong-answer counts, the admitted users (a list, appended
      to) and the firewall's ban set. */
  datatype State = State(
    owner: int,
    mapping: map<int, int>,
    blackLedger: set<int>,
    examPaper: map<int, int>,
    attemptTracker: map<int, int>,
    granted: seq<int>,
    forbiddenRealm: set<int>)

  datatype Step<R> = Step(state: State, out: R)

  /** Outcome of grading one update of a user under examination. */
  datatype Grade = Correct | Incorrect(remains: int) | Exhausted

  /** What the two stacked wrappers do with an update. */
  datatype Gate =
    | Firewalled             // in the firewall's ban set: dropped silently
    | LedgerDropped          // in the quiz blacklist: dropped silently
    | Pass                   // owner or admitted: the handler runs
    | Graded(grade: Grade)   // under examination: the update is graded
    | Issued(a: int, b: int) // anyone else: a new question "a + b = ?"

  datatype ForwardResult = OwnerHint | OwnerIgnored | Delivered(relayedId: int) | SendFailed

  datatype CopyOutcome = Copied | CopyFailed(botBlocked: bool)

  datatype ReplyResult = NoRecord | Replied(target: int) | ReplyFailed(target: int, blockedHint: bool)

  datatype ClearResult = ClearIgnored | Cleared

  /** A wrapped handler: stopped by the wrappers, or run with its result. */
  datatype Wrapped<R> = Stopped(gate: Gate) | Ran(result: R)

  /** The two writing modes of sync_ban_storage. */
  datatype SyncMode = Add | Remove

  /** Unanswered: query.answer() raised before anything else ran. */
  datatype CallbackResult = Unanswered | NotToggle | BadId | Toggled(id: int, banned: bool)

  // ---------------------------------------------------------------------
  // Invariants

  /** dict.get(k, d). */
  function Get(m: map<int, int>, k: int, d: int): int {
    if k in m then m[k] else d
  }

  ghost predicate NoDuplicates(xs: seq<int>) {
    forall i, j :: 0 <= i < j < |xs| ==> xs[i] != xs[j]
  }

  /** The quiz tables track the same users, every count is below the limit,
      every expected answer is a possible sum, nobody under examination is
      blacklisted, admitted or the owner, the owner is never blacklisted by
      the quiz, nobody is admitted twice, and the falsy id 0 is never in the
      firewall's ban set. */
  ghost predicate Inv(s: State) {
    && s.examPaper.Keys == s.attemptTracker.Keys
    && (forall u :: u in s.attemptTracker ==> 0 <= s.attemptTracker[u] < MaxFailLimit)
    && (forall u :: u in s.examPaper ==> 11 <= s.examPaper[u] <= 59)
    && (forall u :: u in s.examPaper ==> u !in s.blackLedger && u !in s.granted && u != s.owner)
    && s.owner !in s.blackLedger
    && NoDuplicates(s.granted)
    && 0 !in s.forbiddenRealm
  }

  /** The globals at import time, once the owner is configured and before
      any file is loaded. */
  function Initial(owner: int): (s: State)
    ensures Inv(s)
    ensures s.granted == InitialGranted
  {
    State(owner, map[], {}, map[], map[], InitialGranted, {})
  }

  // ---------------------------------------------------------------------
  // The quiz layer (auth_challenge_layer / quiz_gen)

  predicate HasText(text: Option<string>) {
    text.Some? && text.value != ""
  }

  /** The quiz compares strings: the stripped text must be exactly the
      decimal form of the sum, so "042" or "+42" is wrong for 42. */
  predicate AnswerCorrect(text: Option<string>, answer: int) {
    HasText(text) && Strip(text.value) == Str(answer)
  }

  /** A right answer: u is appended to the admitted list and both quiz
      records are deleted. */
  function Admit(s: State, u: int): (t: State)
    ensures t.granted == s.granted + [u]
    ensures t.examPaper == s.examPaper - {u} && t.attemptTracker == s.attemptTracker - {u}
    ensures t.blackLedger == s.blackLedger && t.forbiddenRealm == s.forbiddenRealm
    ensures t.owner == s.owner && t.mapping == s.mapping
    ensures Inv(s) && u in s.examPaper ==> Inv(t)
  {
    s.(granted := s.granted + [u],
       examPaper := s.examPaper - {u},
       attemptTracker := s.attemptTracker - {u})
  }

  /** The last wrong answer: u joins the quiz blacklist and both quiz
      records are deleted. */
  function Expel(s: State, u: int): (t: State)
    ensures t.blackLedger == s.blackLedger + {u}
    ensures t.examPaper == s.examPaper - {u} && t.attemptTracker == s.attemptTracker - {u}
    ensures t.granted == s.granted && t.forbiddenRealm == s.forbiddenRealm
    ensures t.owner == s.owner && t.mapping == s.mapping
    ensures Inv(s) && u in s.examPaper ==> Inv(t)
  {
    s.(blackLedger := s.blackLedger + {u},
       examPaper := s.examPaper - {u},
       attemptTracker := s.attemptTracker - {u})
  }

  /** Grading the update of a user under examination.  Absent or empty
      text is a wrong answer.  The count of wrong answers goes up by one
      (from 0 when the tracker has no entry); at the limit the user is
      expelled, otherwise the remaining tries are reported. */
  function Grading(s: State, u: int, text: Option<string>): (r: Step<Grade>)
    requires u in s.examPaper
    ensures r.out == Correct <==> AnswerCorrect(text, s.examPaper[u])
    ensures r.out == Correct ==> r.state == Admit(s, u)
    ensures r.out == Exhausted <==>
      !AnswerCorrect(text, s.examPaper[u]) && Get(s.attemptTracker, u, 0) + 1 >= MaxFailLimit
    ensures r.out == Exhausted ==> r.state == Expel(s, u)
    ensures r.out.Incorrect? ==>
      && r.state == s.(attemptTracker := s.attemptTracker[u := Get(s.attemptTracker, u, 0) + 1])
      && r.out.remains == MaxFailLimit - r.state.attemptTracker[u]
      && r.out.remains > 0
    ensures r.state.owner == s.owner && r.state.mapping == s.mapping
    ensures r.state.forbiddenRealm == s.forbiddenRealm
    ensures Inv(s) ==> Inv(r.state)
  {
    if AnswerCorrect(text, s.examPaper[u]) then
      Step(Admit(s, u), Correct)
    else
      var mistakes := Get(s.attemptTracker, u, 0) + 1;
      var remains := MaxFailLimit - mistakes;
      if remains <= 0 then
        Step(Expel(s, u), Exhausted)
      else
        Step(s.(attemptTracker := s.attemptTracker[u := mistakes]), Incorrect(remains))
  }

  /** The ranges of the two random.randint draws. */
  predicate ChallengeDraw(a: int, b: int) {
    10 <= a <= 50 && 1 <= b <= 9
  }

  /** A new examination for u: the expected sum a + b and no mistakes. */
  function Examine(s: State, u: int, a: int, b: int): (t: State)
    requires ChallengeDraw(a, b)
    ensures u in t.examPaper && 11 <= t.examPaper[u] <= 59 && t.examPaper[u] == a + b
    ensures u in t.attemptTracker && t.attemptTracker[u] == 0
    ensures t.blackLedger == s.blackLedger && t.granted == s.granted
    ensures t.forbiddenRealm == s.forbiddenRealm
    ensures t.owner == s.owner && t.mapping == s.mapping
    ensures Inv(s) && u !in s.blackLedger && u !in s.granted && u != s.owner ==> Inv(t)
  {
    s.(examPaper := s.examPaper[u := a + b], attemptTracker := s.attemptTracker[u := 0])
  }

  /** quiz_gen: the quiz blacklist first, then the owner and the admitted
      list, then grading of users under examination, and a new question
      for everyone else. */
  function Quiz(s: State, u: int, text: Option<string>, a: int, b: int): (r: Step<Gate>)
    requires ChallengeDraw(a, b)
    ensures r.out == LedgerDropped <==> u in s.blackLedger
    ensures r.out == Pass <==> u !in s.blackLedger && (u == s.owner || u in s.granted)
    ensures r.out.Graded? <==>
      u !in s.blackLedger && u != s.owner && u !in s.granted && u in s.examPaper
    ensures r.out.Graded? ==> r == Step(Grading(s, u, text).state, Graded(Grading(s, u, text).out))
    ensures r.out.Issued? <==>
      u !in s.blackLedger && u != s.owner && u !in s.granted && u !in s.examPaper
    ensures r.out.Issued? ==> r == Step(Examine(s, u, a, b), Issued(a, b))
    ensures r.out == LedgerDropped || r.out == Pass ==> r.state == s
    ensures !r.out.Firewalled?
    ensures r.state.owner == s.owner && r.state.mapping == s.mapping
    ensures r.state.forbiddenRealm == s.forbiddenRealm
    ensures Inv(s) ==> Inv(r.state)
  {
    if u in s.blackLedger then
      Step(s, LedgerDropped)
    else if u == s.owner || u in s.granted then
      Step(s, Pass)
    else if u in s.examPaper then
      var g := Grading(s, u, text);
      Step(g.state, Graded(g.out))
    else
      Step(Examine(s, u, a, b), Issued(a, b))
  }

  // ---------------------------------------------------------------------
  // The firewall (firewall_wrapper / security_proxy)

  /** security_proxy around quiz_gen: the firewall's ban set is checked
      before anything else, the owner included. */
  function Firewall(s: State, u: int, text: Option<string>, a: int, b: int): (r: Step<Gate>)
    requires ChallengeDraw(a, b)
    ensures r.out == Firewalled <==> u in s.forbiddenRealm
    ensures r.out == Firewalled ==> r.state == s
    ensures u !in s.forbiddenRealm ==> r == Quiz(s, u, text, a, b)
    ensures r.out == Pass <==>
      u !in s.forbiddenRealm && u !in s.blackLedger && (u == s.owner || u in s.granted)
    ensures Inv(s) ==> Inv(r.state)
  {
    if u in s.forbiddenRealm then Step(s, Firewalled)
    else Quiz(s, u, text, a, b)
  }

  /** sync_ban_storage in its writing modes, on the ban set alone: mode
      Add inserts only a truthy (non-zero) id, mode Remove deletes only an
      id that is there; no other id changes. */
  function SyncBanStorage(realm: set<int>, mode: SyncMode, uid: int): (r: set<int>)
    ensures forall v :: v != uid ==> (v in r <==> v in realm)
    ensures mode == Add ==> (uid in r <==> uid in realm || uid != 0)
    ensures mode == Remove ==> uid !in r
  {
    match mode
    case Add => if uid != 0 then realm + {uid} else realm
    case Remove => if uid in realm then realm - {uid} else realm
  }

  /** The control panel's button payload for visitor u. */
  function ToggleButton(u: int): string {
    "CMD_BAN_TOGGLE:" + Str(u)
  }

  /** The button's effect on the ban set: a banned id is removed, any
      other id is added, except that Add ignores the falsy id 0. */
  function ToggleRealm(realm: set<int>, id: int): (r: set<int>)
    ensures id in r <==> id !in realm && id != 0
    ensures forall v :: v != id ==> (v in r <==> v in realm)
    ensures 0 !in realm ==> 0 !in r
  {
    if id in realm then SyncBanStorage(realm, Remove, id)
    else SyncBanStorage(realm, Add, id)
  }

  /** admin_panel_callback.  The query is acknowledged first; when that
      call raises (answered false) nothing else runs.  Any data containing
      "CMD_BAN_TOGGLE:" counts, wherever it occurs; the id is the second
      ':'-separated field (which exists, since the data contains a ':'),
      read with int(), and an unreadable id raises and changes nothing.
      There is no check of who pressed the button, so the function has no
      caller parameter. */
  function AdminPanelCallback(s: State, data: string, answered: bool): (r: Step<CallbackResult>)
    ensures !answered ==> r == Step(s, Unanswered)
    ensures r.out == NotToggle <==> answered && !Contains(data, "CMD_BAN_TOGGLE:")
    ensures r.out == BadId <==>
      answered && Contains(data, "CMD_BAN_TOGGLE:") && |Split(data, ':')| >= 2
      && ParseInt(Split(data, ':')[1]).None?
    ensures r.out.Toggled? <==>
      answered && Contains(data, "CMD_BAN_TOGGLE:") && |Split(data, ':')| >= 2
      && ParseInt(Split(data, ':')[1]).Some?
    ensures r.out.Toggled? ==>
      && |Split(data, ':')| >= 2 && ParseInt(Split(data, ':')[1]) == Some(r.out.id)
      && r.state == s.(forbiddenRealm := ToggleRealm(s.forbiddenRealm, r.out.id))
      && (r.out.banned <==> r.out.id in r.state.forbiddenRealm)
    ensures !r.out.Toggled? ==> r.state == s
    ensures Inv(s) ==> Inv(r.state)
  {
    if !answered then
      Step(s, Unanswered)
    else if !Contains(data, "CMD_BAN_TOGGLE:") then
      Step(s, NotToggle)
    else
      ContainsChar(data, "CMD_BAN_TOGGLE:", 14);
      var parts := Split(data, ':');
      match ParseInt(parts[1])
      case None => Step(s, BadId)
      case Some(id) =>
        // banned is membership after the toggle, so the falsy id 0, which
        // Add leaves out, is reported as not banned although the panel's
        // text for that branch says "Banned"
        var realm := ToggleRealm(s.forbiddenRealm, id);
        Step(s.(forbiddenRealm := realm), Toggled(id, id in realm))
  }

  // ---------------------------------------------------------------------
  // The wrapped handlers

  /** The body of forward_message_handler: the owner's messages are not
      relayed; for anyone else the header and the forward must both succeed
      before the routing table records the relayed id. */
  function Forward(s: State, u: int, isReply: bool,
                   headerSent: bool, forwardedId: Option<int>): (r: Step<ForwardResult>)
    ensures u == s.owner ==> r == Step(s, if isReply then OwnerIgnored else OwnerHint)
    ensures r.out.Delivered? <==> u != s.owner && headerSent && forwardedId.Some?
    ensures r.out.Delivered? ==>
      r.out.relayedId == forwardedId.value
      && r.state == s.(mapping := s.mapping[r.out.relayedId := u])
    ensures !r.out.Delivered? ==> r.state == s
  {
    if u == s.owner then
      Step(s, if isReply then OwnerIgnored else OwnerHint)
    else if !headerSent || forwardedId.None? then
      Step(s, SendFailed)
    else
      Step(s.(mapping := s.mapping[forwardedId.value := u]), Delivered(forwardedId.value))
  }

  /** forward_message_handler behind both wrappers. */
  function ForwardMessageHandler(s: State, u: int, text: Option<string>, isReply: bool, a: int, b: int,
                                 headerSent: bool, forwardedId: Option<int>): (r: Step<Wrapped<ForwardResult>>)
    requires ChallengeDraw(a, b)
    ensures r.out.Ran? <==>
      u !in s.forbiddenRealm && u !in s.blackLedger && (u == s.owner || u in s.granted)
    ensures r.out.Stopped? ==>
      r == Step(Firewall(s, u, text, a, b).state, Stopped(Firewall(s, u, text, a, b).out))
    ensures r.out.Ran? ==>
      r == Step(Forward(s, u, isReply, headerSent, forwardedId).state,
                Ran(Forward(s, u, isReply, headerSent, forwardedId).out))
    ensures Inv(s) ==> Inv(r.state)
  {
    var g := Firewall(s, u, text, a, b);
    if g.out != Pass then
      Step(g.state, Stopped(g.out))
    else
      var f := Forward(s, u, isReply, headerSent, forwardedId);
      Step(f.state, Ran(f.out))
  }

  /** The body of reply_handler: a routing lookup that is missing or falsy
      (0) reports "no record"; otherwise the copy's outcome is reported.
      Nothing is counted and no state changes. */
  function Reply(s: State, repliedId: int, copy: CopyOutcome): (r: ReplyResult)
    ensures r == NoRecord <==> Get(s.mapping, repliedId, 0) == 0
    ensures !r.NoRecord? ==>
      repliedId in s.mapping && r.target == s.mapping[repliedId] && r.target != 0
    ensures r.Replied? <==> Get(s.mapping, repliedId, 0) != 0 && copy == Copied
    ensures r.ReplyFailed? ==> r.blockedHint == copy.botBlocked
  {
    var target := Get(s.mapping, repliedId, 0);
    if target == 0 then NoRecord
    else
      match copy
      case Copied => Replied(target)
      case CopyFailed(blocked) => ReplyFailed(target, blocked)
  }

  /** reply_handler behind both wrappers; caller is the reply's sender. */
  function ReplyHandler(s: State, caller: int, text: Option<string>, a: int, b: int,
                        repliedId: int, copy: CopyOutcome): (r: Step<Wrapped<ReplyResult>>)
    requires ChallengeDraw(a, b)
    ensures r.out.Ran? <==>
      caller !in s.forbiddenRealm && caller !in s.blackLedger && (caller == s.owner || caller in s.granted)
    ensures r.out.Ran? ==> r == Step(s, Ran(Reply(s, repliedId, copy)))
    ensures r.out.Stopped? ==>
      r == Step(Firewall(s, caller, text, a, b).state, Stopped(Firewall(s, caller, text, a, b).out))
    ensures Inv(s) ==> Inv(r.state)
  {
    var g := Firewall(s, caller, text, a, b);
    if g.out != Pass then Step(g.state, Stopped(g.out))
    else Step(s, Ran(Reply(s, repliedId, copy)))
  }

  /** The body of clear_command: anyone but the owner is ignored; the owner
      empties the routing table and nothing else changes. */
  function Clear(s: State, caller: int): (r: Step<ClearResult>)
    ensures r.out == Cleared <==> caller == s.owner
    ensures r.out == Cleared ==> r.state == s.(mapping := map[])
    ensures r.out == ClearIgnored ==> r.state == s
  {
    if caller != s.owner then Step(s, ClearIgnored)
    else Step(s.(mapping := map[]), Cleared)
  }

  /** clear_command behind both wrappers: an admitted user passes the
      wrappers and is then ignored by the body. */
  function ClearCommand(s: State, caller: int, text: Option<string>, a: int, b: int): (r: Step<Wrapped<ClearResult>>)
    requires ChallengeDraw(a, b)
    ensures r.out.Ran? <==>
      caller !in s.forbiddenRealm && caller !in s.blackLedger && (caller == s.owner || caller in s.granted)
    ensures r.out == Ran(Cleared) <==>
      caller !in s.forbiddenRealm && caller !in s.blackLedger && caller == s.owner
    ensures r.out == Ran(Cleared) ==> r.state == s.(mapping := map[])
    ensures r.out == Ran(ClearIgnored) ==> r.state == s
    ensures r.out.Stopped? ==>
      r == Step(Firewall(s, caller, text, a, b).state, Stopped(Firewall(s, caller, text, a, b).out))
    ensures Inv(s) ==> Inv(r.state)
  {
    var g := Firewall(s, caller, text, a, b);
    if g.out != Pass then Step(g.state, Stopped(g.out))
    else
      var c := Clear(s, caller);
      Step(c.state, Ran(c.out))
  }

  // ---------------------------------------------------------------------
  // Properties relating several steps

  /** With the falsy id 0 out of the ban set, toggling any id twice gives
      the ban set back. */
  lemma ToggleRealmTwice(realm: set<int>, id: int)
    requires 0 !in realm
    ensures ToggleRealm(ToggleRealm(realm, id), id) == realm
  {
    var r2 := ToggleRealm(ToggleRealm(realm, id), id);
    assert forall v :: v in r2 <==> v in realm;
  }

  /** Pressing the same button twice, whoever presses it, restores the
      whole state when both presses are acknowledged. */
  lemma CallbackTwice(s: State, data: string)
    requires Inv(s)
    ensures AdminPanelCallback(AdminPanelCallback(s, data, true).state, data, true).state == s
  {
    var r1 := AdminPanelCallback(s, data, true);
    if r1.out.Toggled? {
      ToggleRealmTwice(s.forbiddenRealm, r1.out.id);
    }
  }

  /** The panel's button for u decodes to u and toggles u. */
  lemma ToggleButtonToggles(s: State, u: int)
    ensures AdminPanelCallback(s, ToggleButton(u), true) ==
      Step(s.(forbiddenRealm := ToggleRealm(s.forbiddenRealm, u)),
           Toggled(u, u != 0 && u !in s.forbiddenRealm))
  {
    var data := ToggleButton(u);
    assert "CMD_BAN_TOGGLE:" <= data[0..];
    assert ':' !in Str(u);
    assert data == Join(["CMD_BAN_TOGGLE", Str(u)], ':');
    SplitJoin(["CMD_BAN_TOGGLE", Str(u)], ':');
    ParseIntStr(u);
  }

  /** "CMD_BAN_TOGGLE: " + str(u) carries the prefix, splits into the
      command and " " + str(u), and int() reads the latter as u. */
  lemma PaddedToggleDecodes(u: int)
    ensures Contains("CMD_BAN_TOGGLE: " + Str(u), "CMD_BAN_TOGGLE:")
    ensures Split("CMD_BAN_TOGGLE: " + Str(u), ':') == ["CMD_BAN_TOGGLE", " " + Str(u)]
    ensures ParseInt(" " + Str(u)) == Some(u)
  {
    var data := "CMD_BAN_TOGGLE: " + Str(u);
    var f := " " + Str(u);
    assert "CMD_BAN_TOGGLE:" <= data[0..];
    assert ':' !in f by {
      assert ':' !in Str(u);
    }
    assert data == Join(["CMD_BAN_TOGGLE", f], ':');
    SplitJoin(["CMD_BAN_TOGGLE", f], ':');
    ParseIntPadded(" ", u, "");
    assert " " + Str(u) + "" == f;
  }

  /** Callback data whose id has int() whitespace before it, such as
      "CMD_BAN_TOGGLE: 5", still toggles that id. */
  lemma PaddedToggleToggles(s: State, u: int)
    ensures AdminPanelCallback(s, "CMD_BAN_TOGGLE: " + Str(u), true) ==
      Step(s.(forbiddenRealm := ToggleRealm(s.forbiddenRealm, u)),
           Toggled(u, u != 0 && u !in s.forbiddenRealm))
  {
    PaddedToggleDecodes(u);
  }

  /** Since the callback checks nobody, the owner's own ban button can be
      pressed, after which the firewall drops the owner's messages too. */
  lemma OwnerCanBeFirewalled(s: State, text: Option<string>, a: int, b: int)
    requires ChallengeDraw(a, b)
    requires s.owner != 0 && s.owner !in s.forbiddenRealm
    ensures var t := AdminPanelCallback(s, ToggleButton(s.owner), true).state;
      && s.owner in t.forbiddenRealm
      && Firewall(t, s.owner, text, a, b) == Step(t, Firewalled)
  {
    ToggleButtonToggles(s, s.owner);
  }

  /** Adding twice is adding once; removing what was just added restores
      a ban set that lacked it. */
  lemma SyncAddRemove(realm: set<int>, uid: int)
    ensures SyncBanStorage(SyncBanStorage(realm, Add, uid), Add, uid) == SyncBanStorage(realm, Add, uid)
    ensures uid !in realm ==> SyncBanStorage(SyncBanStorage(realm, Add, uid), Remove, uid) == realm
  {
    var once := SyncBanStorage(realm, Add, uid);
    assert forall v :: v in SyncBanStorage(once, Add, uid) <==> v in once;
    if uid !in realm {
      assert forall v :: v in SyncBanStorage(once, Remove, uid) <==> v in realm;
    }
  }

  /** A new user answering str(a + b) is admitted: the first update draws
      the question, the answer is graded Correct, and the user is appended
      to the admitted list with no quiz records left. */
  lemma CorrectAnswerAdmits(s: State, u: int, first: Option<string>, a: int, b: int, a': int, b': int)
    requires ChallengeDraw(a, b) && ChallengeDraw(a', b')
    requires u != s.owner && u !in s.blackLedger && u !in s.granted && u !in s.examPaper
    ensures var s1 := Quiz(s, u, first, a, b);
      s1.out == Issued(a, b)
      && var s2 := Quiz(s1.state, u, Some(Str(a + b)), a', b');
      s2.out == Graded(Correct)
      && s2.state.granted == s.granted + [u]
      && u !in s2.state.examPaper && u !in s2.state.attemptTracker
      && Quiz(s2.state, u, None, a', b') == Step(s2.state, Pass)
  {
    var s1 := Examine(s, u, a, b);
    assert Str(a + b) != "";
    StripFixed(Str(a + b));
    assert AnswerCorrect(Some(Str(a + b)), s1.examPaper[u]);
  }

  /** Three wrong updates from a new user, including updates without any
      text, put the user in the quiz blacklist, after which everything
      from the user is dropped. */
  lemma ThreeMistakesExpel(s: State, u: int, first: Option<string>,
                           w1: Option<string>, w2: Option<string>, w3: Option<string>,
                           later: Option<string>, a: int, b: int)
    requires ChallengeDraw(a, b)
    requires u != s.owner && u !in s.blackLedger && u !in s.granted && u !in s.examPaper
    requires !AnswerCorrect(w1, a + b) && !AnswerCorrect(w2, a + b) && !AnswerCorrect(w3, a + b)
    ensures var s0 := Quiz(s, u, first, a, b).state;
      var s1 := Quiz(s0, u, w1, a, b);
      var s2 := Quiz(s1.state, u, w2, a, b);
      var s3 := Quiz(s2.state, u, w3, a, b);
      && s1.out == Graded(Incorrect(2))
      && s2.out == Graded(Incorrect(1))
      && s3.out == Graded(Exhausted)
      && s3.state.blackLedger == s.blackLedger + {u}
      && u !in s3.state.examPaper && u !in s3.state.attemptTracker
      && Quiz(s3.state, u, later, a, b) == Step(s3.state, LedgerDropped)
  {
    var s0 := Examine(s, u, a, b);
    assert Quiz(s, u, first, a, b).state == s0;
    var s1 := Quiz(s0, u, w1, a, b);
    assert s1.state == s0.(attemptTracker := s0.attemptTracker[u := 1]);
    var s2 := Quiz(s1.state, u, w2, a, b);
    assert s2.state == s1.state.(attemptTracker := s1.state.attemptTracker[u := 2]);
    var s3 := Quiz(s2.state, u, w3, a, b);
    assert s3.state == Expel(s2.state, u);
  }

  /** A relayed message routes the owner's reply back to its sender,
      provided the sender's id is not the falsy 0. */
  lemma ForwardThenReply(s: State, u: int, fid: int)
    requires u != s.owner && u != 0
    ensures var f := Forward(s, u, false, true, Some(fid));
      f.out == Delivered(fid) && Reply(f.state, fid, Copied) == Replied(u)
  {
  }

  /** Clearing twice is clearing once. */
  lemma ClearIdempotent(s: State)
    ensures Clear(Clear(s, s.owner).state, s.owner) == Clear(s, s.owner)
  {
  }
}
