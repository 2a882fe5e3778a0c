// Whom the gateway calls over a whole run.
module GatewayCalls {
  import opened Options
  import opened GatewayModel
  import opened GatewayRuns

  // The user that the tables name for an extension; an extension of digits is a user id.
  predicate IsNamed(s: Shared, c: Call) {
    if c.username != "" then c.username in s.usernames && s.usernames[c.username] == c.user
    else c.phone != "" ==> c.phone in s.phones && s.phones[c.phone] == c.user
  }

  // Names are added to the tables, and none is changed.
  ghost predicate Grows(s: Shared, s': Shared) {
    && (forall k :: k in s.usernames ==> k in s'.usernames && s'.usernames[k] == s.usernames[k])
    && (forall k :: k in s.phones ==> k in s'.phones && s'.phones[k] == s.phones[k])
    && s.calls <= s'.calls
    && forall k :: |s.calls| <= k < |s'.calls| ==> IsNamed(s', s'.calls[k])
  }

  lemma GrowsAfter(s: Shared, t: Shared, u: Shared)
    requires Grows(s, t) && Grows(t, u)
    ensures Grows(s, u)
  {
    forall k | |s.calls| <= k < |u.calls| ensures IsNamed(u, u.calls[k]) {
      if k < |t.calls| {
        assert IsNamed(t, t.calls[k]) && u.calls[k] == t.calls[k];
      }
    }
  }

  // What dialing may do to the tables and the calls.
  ghost predicate Called(w: World, w': World, blocked: bool) {
    && Grows(w.s, w'.s)
    && (w'.c.tg != w.c.tg ==> w'.s.calls != w.s.calls)
    && (w'.s.calls != w.s.calls ==>
          !blocked && |w'.s.calls| == |w.s.calls| + 1
          && var call := w'.s.calls[|w.s.calls|];
             call == Call(w.c.extUsername, w.c.extPhone, call.user)
             && (w.c.extUsername == "" && w.c.extPhone == "" ==> call.user == w.c.userId))
  }

  lemma ByUsernameCalls(w: World, a: Answers)
    requires w.c.extUsername != ""
    ensures Called(w, DialByUsername(w, a), false)
  {
  }

  lemma ByPhoneCalls(w: World, a: Answers)
    requires w.c.extUsername == "" && w.c.extPhone != ""
    ensures Called(w, DialByPhone(w, a), false)
  {
  }

  // Dialing calls at most one user: the one the tables name for the extension afterwards.
  // It calls none while calls are blocked, and takes on a call only by calling.
  lemma DialTgCalls(w: World, a: Answers)
    ensures Called(w, DialTg(w, a), w.s.blockUntil > a.now)
  {
    hide DialByUsername, DialByPhone;
    if w.s.blockUntil <= a.now {
      if w.c.extUsername != "" {
        ByUsernameCalls(w, a);
      } else if w.c.extPhone != "" {
        ByPhoneCalls(w, a);
      }
    }
  }

  lemma CallStateGrows(w: World, e: Event, a: Answers)
    requires e.CallStateUpdate?
    ensures Grows(w.s, OnCallState(w, e, a).s)
  {
    DialTgCalls(w, a);
    hide DialTg;
  }

  lemma ReactGrows(w: World, e: Event, a: Answers)
    ensures Grows(w.s, React(w, e, a).s)
  {
    hide OnCallState, AcceptIncomingSip;
    match e
    case IncomingCall(_, ext) => AcceptGrows(TakeSip(w, e.id), ext, a);
    case CallStateUpdate(_, _) => CallStateGrows(w, e, a);
    case _ =>
  }

  lemma AcceptGrows(w: World, ext: string, a: Answers)
    ensures Grows(w.s, AcceptIncomingSip(w, ext, a).s)
  {
    hide IsDigits, Number;
  }

  lemma NextGrows(st: State, step: Step)
    ensures Grows(st.s, Next(st, step).s)
  {
    match step
    case External(e, a) =>
      var st1 := SearchCall(st, e);
      ReactGrows(At(st1, Find(st.bridges, e)), e, a);
      hide React, Grows;
    case Internal =>
  }

  // Over any run, from any state, names in the tables stay as they are, and every call made
  // is to the user that the tables name for its extension.
  lemma {:induction false} RunGrows(st: State, run: seq<Step>)
    ensures Grows(st.s, After(st, run).s)
  {
    if run != [] {
      var before := After(st, run[..|run| - 1]);
      RunGrows(st, run[..|run| - 1]);
      NextGrows(before, run[|run| - 1]);
      hide Next, Grows;
      GrowsAfter(st.s, before.s, After(st, run).s);
    }
  }

  // So calls to one username, or to one phone number, all reach the same user.
  lemma SameExtensionSameUser(usernames: map<string, int>, phones: map<string, int>, now: int, run: seq<Step>, i: nat, j: nat)
    requires var calls := After(Start(usernames, phones, now), run).s.calls; i < |calls| && j < |calls|
    ensures var calls := After(Start(usernames, phones, now), run).s.calls;
      var c, d := calls[i], calls[j];
      c.username == d.username && c.phone == d.phone && (c.username != "" || c.phone != "") ==> c.user == d.user
  {
    var st := After(Start(usernames, phones, now), run);
    RunGrows(Start(usernames, phones, now), run);
    assert IsNamed(st.s, st.s.calls[i]) && IsNamed(st.s, st.s.calls[j]);
  }

  // ----- while calls are blocked -----

  // Telegram refused a request of a dial, and said how long to wait, or that it was flooded.
  function BlockedBy(e: TgError, a: Answers, otherwise: int): int {
    match e
    case TooManyRequests(seconds) => a.now + seconds + a.extraWaitTime
    case PeerFlood => a.now + a.peerFloodTime
    case OtherError => otherwise
  }

  // The request that fails, if one does: the search for the user, or else the call.
  function Failure(w: World, a: Answers): Option<TgError> {
    if w.c.extUsername != "" && w.c.extUsername !in w.s.usernames && a.searchChat.Refused? then Some(a.searchChat.error)
    else if w.c.extUsername != "" && w.c.extUsername !in w.s.usernames && !a.chatIsPrivate then None
    else if w.c.extUsername == "" && w.c.extPhone != "" && w.c.extPhone !in w.s.phones && a.importContact.Refused? then
      Some(a.importContact.error)
    else if w.c.extUsername == "" && w.c.extPhone != "" && w.c.extPhone !in w.s.phones && a.importContact.value == 0 then None
    else if a.createCall.Refused? then Some(a.createCall.error)
    else None
  }

  // A dial that is tried while calls are not blocked blocks them as long as Telegram asks for.
  lemma RefusalBlocks(w: World, a: Answers)
    requires w.s.blockUntil <= a.now
    ensures DialTg(w, a).s.blockUntil ==
      match Failure(w, a)
      case Some(e) => BlockedBy(e, a, w.s.blockUntil)
      case None => w.s.blockUntil
  {
  }

  // Everything in the run is asked for before t.
  predicate IsUpTo(run: seq<Step>, t: int) {
    forall k :: 0 <= k < |run| && run[k].External? ==> run[k].a.now < t
  }

  lemma BlockedStep(st: State, step: Step)
    requires step.External? ==> step.a.now < st.s.blockUntil
    ensures Next(st, step).s.calls == st.s.calls && Next(st, step).s.blockUntil == st.s.blockUntil
  {
    match step
    case External(e, a) =>
      var st1 := SearchCall(st, e);
      BlockedReact(At(st1, Find(st.bridges, e)), e, a);
      hide React;
    case Internal =>
  }

  lemma BlockedReact(w: World, e: Event, a: Answers)
    requires a.now < w.s.blockUntil
    ensures React(w, e, a).s.calls == w.s.calls && React(w, e, a).s.blockUntil == w.s.blockUntil
  {
    hide AcceptIncomingSip;
    if e.IncomingCall? { AcceptKeepsCalls(TakeSip(w, e.id), e.extension, a); }
  }

  lemma AcceptKeepsCalls(w: World, ext: string, a: Answers)
    ensures var s := AcceptIncomingSip(w, ext, a).s; s.calls == w.s.calls && s.blockUntil == w.s.blockUntil
  {
    hide IsDigits, Number;
  }

  // Until that time nobody is called, and the time stays as it is.
  lemma {:induction false} NobodyIsCalledWhileBlocked(st: State, run: seq<Step>)
    requires IsUpTo(run, st.s.blockUntil)
    ensures After(st, run).s.calls == st.s.calls && After(st, run).s.blockUntil == st.s.blockUntil
  {
    hide Next;
    if run != [] {
      NobodyIsCalledWhileBlocked(st, run[..|run| - 1]);
      BlockedStep(After(st, run[..|run| - 1]), run[|run| - 1]);
    }
  }
}
